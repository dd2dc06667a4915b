/**
 Freedom from deadlock of the provider pool: waits go up a strict rank, and from every waiting thread
 they lead to one that can go on.
 */
module PoolLiveness {
  import opened Basics
  import opened Sorting
  import opened PoolProtocol
  import opened PoolSafety
  import opened PoolSteps
  import opened PoolFrames
  import opened PoolRuns

  /** A thread that can go on without another thread giving something up. */
  predicate Runnable(st: State, t: Tid) {
    var pc := PcOf(st, t);
    match pc
    case Idle => false
    case WantSlot(s, _) => Free(st, LSlot(s))
    case WantAdmit(_) => Free(st, LAdmit)
    case CloseWant(_, p) => Free(st, LProv(p))
    case ShutWait(reaper) => Quiet(st, reaper)
    case WaitRelease(l) => l in st.leases && st.leases[l].state.Released?
    case _ => true
  }

  /** A time the clock may show. */
  function NowFor(st: State, s: SlotId): int { if s in st.slots then st.slots[s].lastUsed else 0 }

  /** The step a runnable thread takes next; opens and closes may return at any time. */
  lemma RunnableStep(st: State, t: Tid, p: ProvId, l: LeaseId) returns (step: Step)
    requires Runnable(st, t) && p !in st.provs && l !in st.leases
    ensures step.t == t && Enabled(st, step) && !IsCall(step)
  {
    var pc := PcOf(st, t);
    match pc {
      case WantSlot(_, _) => step := LockSlot(t);
      case InSlot(_, op) =>
        match op {
          case OpCanonical => step := CanonicalCheck(t, false);
          case OpExisting => step := ExistingUse(t, l, NowFor(st, pc.slot));
          case OpRestart => step := RestartUse(t);
          case OpRelease(_) => step := ReleaseUse(t, NowFor(st, pc.slot));
          case OpShut(_) => step := ShutUse(t);
        }
      case Checked(_) => step := CanonicalUse(t, true, l, NowFor(st, pc.slot));
      case WantAdmit(_) => step := LockAdmit(t);
      case Admit(_, _) => step := AdmitStep(t, p);
      case Scan(_, todo, hunt) =>
        if todo == {} {
          var sorted := SortedCandidates(hunt.cands);
          step := ScanDone(t, sorted);
        } else {
          var s :| s in todo;
          step := ScanSlot(t, s);
        }
      case Try(_, _) => step := TryNext(t);
      case OpenBusy(_, _, _) => step := OpenReturns(t, false, 0);
      case Opened(_, _) => step := Install(t, l, NowFor(st, pc.slot));
      case CloseWant(_, _) => step := LockProv(t);
      case CloseBusy(_, _) => step := CloseReturns(t, true);
      case CloseDelete(_, _) => step := DeleteOwned(t);
      case ReapScan(todo) =>
        if todo == {} { step := ReapDone(t); } else { var s :| s in todo; step := ReapSlot(t, s, false); }
      case ShutWait(_) => step := ShutReady(t);
      case WaitRelease(_) => step := ReleaseDone(t);
      case ShutSlots(todo) =>
        if todo == {} { step := ShutSlotsDone(t); } else { var s :| s in todo; step := ShutNextSlot(t, s); }
      case ShutProvs(left) =>
        if left == {} { step := ShutDone(t); } else { var q :| q in left; step := ShutNextProv(t, q); }
    }
  }

  lemma SortedCandidates(cands: seq<Cand>) returns (sorted: seq<Cand>)
    ensures multiset(sorted) == multiset(cands) && SortedByUse(sorted)
  {
    assert TotalPreorder(UsedLe);
    sorted := SortExists(cands, UsedLe);
    forall i, j | 0 <= i < j < |sorted| ensures sorted[i].used <= sorted[j].used { assert UsedLe(sorted[i], sorted[j]); }
  }

  // ---------- Who finishes a release ----------

  /** The first caller of a release function is still on its way to the slot. */
  predicate Returning(st: State, l: LeaseId)
    requires l in st.leases
  {
    st.leases[l].state.Releasing? ==>
      var pc := PcOf(st, st.leases[l].state.releaser);
      (pc.WantSlot? || pc.InSlot?) && pc.op == OpRelease(l)
  }

  predicate ReleaseInv(st: State) { forall l :: l in st.leases ==> Returning(st, l) }

  /** The releaser itself either takes the slot lock or finishes the release. */
  lemma ReleaserStep(st: State, step: Step, l: LeaseId)
    requires Inv(st) && Enabled(st, step) && l in st.leases && st.leases[l].state == Releasing(step.t) && Returning(st, l)
    ensures l in Apply(st, step).leases && Returning(Apply(st, step), l)
  {
    ReleaserPlace(st, step.t, l);
    if step.LockSlot? { ReleaserLocks(st, step, l); } else { ReleaserReleases(st, step, l); }
  }

  lemma ReleaserPlace(st: State, t: Tid, l: LeaseId)
    requires Inv(st) && l in st.leases && st.leases[l].state == Releasing(t) && Returning(st, l)
    ensures var pc := PcOf(st, t); pc.slot in st.slots && st.slots[pc.slot].users > 0
  {
    ThreadFact(st, t);
    var s := PcOf(st, t).slot;
    SlotFact(st, s);
    assert l in ActiveLeases(st, s);
    LeasedUsers(st, s, l);
  }

  lemma ReleaserLocks(st: State, step: Step, l: LeaseId)
    requires Enabled(st, step) && step.LockSlot? && l in st.leases && st.leases[l].state == Releasing(step.t) && Returning(st, l)
    ensures l in Apply(st, step).leases && Returning(Apply(st, step), l)
  {
  }

  lemma ReleaserReleases(st: State, step: Step, l: LeaseId)
    requires Enabled(st, step) && !step.LockSlot? && l in st.leases && st.leases[l].state == Releasing(step.t) && Returning(st, l)
    requires var pc := PcOf(st, step.t); pc.slot in st.slots && st.slots[pc.slot].users > 0
    ensures l in Apply(st, step).leases && Returning(Apply(st, step), l)
  {
    assert step.ReleaseUse?;
  }

  lemma ReturningKept(st: State, step: Step, l: LeaseId)
    requires Inv(st) && ReleaseInv(st) && Enabled(st, step) && l in Apply(st, step).leases
    ensures Returning(Apply(st, step), l)
  {
    LeaseFrame(st, step, l);
    if l in st.leases && Apply(st, step).leases[l] == st.leases[l] && st.leases[l].state.Releasing? {
      assert Returning(st, l);
      var u := st.leases[l].state.releaser;
      if u == step.t { ReleaserStep(st, step, l); } else { OthersStay(st, step, u); }
    }
  }

  lemma {:induction false} ReleaseRun(st: State, steps: seq<Step>)
    requires Inv(st) && ReleaseInv(st) && IsRun(st, steps)
    ensures Inv(After(st, steps)) && ReleaseInv(After(st, steps))
    decreases |steps|
  {
    if steps != [] {
      var st' := Apply(st, steps[0]);
      StepKeeps(st, steps[0]);
      forall l | l in st'.leases ensures Returning(st', l) { ReturningKept(st, steps[0], l); }
      ReleaseRun(st', steps[1..]);
    }
  }

  // ---------- No wait cycle ----------

  /** Thread t cannot go on before u gives up a lock, returns from an open, stops reaping or
      finishes the release t joined. */
  predicate WaitsFor(st: State, t: Tid, u: Tid) {
    match PcOf(st, t)
    case WantSlot(s, _) => LSlot(s) in Holds(PcOf(st, u))
    case WantAdmit(_) => LAdmit in Holds(PcOf(st, u))
    case CloseWant(_, p) => LProv(p) in Holds(PcOf(st, u))
    case ShutWait(reaper) =>
      || (exists p :: p in st.provs && st.provs[p].status == Opening(u))
      || (reaper == Some(u) && Reaping(PcOf(st, u)))
    case WaitRelease(l) => l in st.leases && st.leases[l].state == Releasing(u)
    case _ => false
  }

  /** Where a program point stands in the order of waits: joins, slot, admission, provider, the rest. */
  function Rank(pc: PC): (r: nat)
    ensures r <= 4
  {
    match pc
    case ShutWait(_) => 0
    case WaitRelease(_) => 0
    case WantSlot(_, _) => 1
    case WantAdmit(_) => 2
    case CloseWant(_, _) => 3
    case _ => 4
  }

  /** Who holds a lock is past the point of waiting for it or for a lock before it. */
  lemma HolderRank(pc: PC, l: Lock)
    requires l in Holds(pc)
    ensures Rank(pc) > match l case LSlot(_) => 1 case LAdmit => 2 case LProv(_) => 3
  {
  }

  /** Every wait is for a thread of higher rank. */
  lemma WaitsUp(st: State, t: Tid, u: Tid)
    requires Inv(st) && ReleaseInv(st) && WaitsFor(st, t, u)
    ensures Rank(PcOf(st, t)) < Rank(PcOf(st, u))
  {
    match PcOf(st, t) {
      case WantSlot(s, _) => HolderRank(PcOf(st, u), LSlot(s));
      case WantAdmit(_) => HolderRank(PcOf(st, u), LAdmit);
      case CloseWant(_, p) => HolderRank(PcOf(st, u), LProv(p));
      case ShutWait(reaper) => OpenerRank(st, u);
      case WaitRelease(l) => assert Returning(st, l);
      case _ =>
    }
  }

  lemma OpenerRank(st: State, u: Tid)
    requires Inv(st)
    ensures (exists p :: p in st.provs && st.provs[p].status == Opening(u)) ==> PcOf(st, u).OpenBusy?
  {
    if p :| p in st.provs && st.provs[p].status == Opening(u) { assert ProvOk(st, p); }
  }

  lemma Holder(st: State, l: Lock) returns (u: Tid)
    requires !Free(st, l)
    ensures l in Holds(PcOf(st, u))
  {
    u :| u in st.threads && l in Holds(st.threads[u]);
  }

  /** A shutdown that cannot go on waits for an opener or the reaper it joins. */
  lemma ShutWaits(st: State, t: Tid) returns (u: Tid)
    requires Inv(st) && PcOf(st, t).ShutWait? && !Runnable(st, t)
    ensures WaitsFor(st, t, u)
  {
    var reaper := PcOf(st, t).reaper;
    if NoneOpening(st) {
      u := reaper.value;
    } else {
      var p :| p in st.provs && st.provs[p].status.Opening?;
      u := st.provs[p].status.opener;
    }
  }

  /** A thread in a call that cannot go on waits for somebody. */
  lemma BlockedWaits(st: State, t: Tid) returns (u: Tid)
    requires Inv(st) && !PcOf(st, t).Idle? && !Runnable(st, t)
    ensures WaitsFor(st, t, u)
  {
    match PcOf(st, t) {
      case WantSlot(s, _) => u := Holder(st, LSlot(s));
      case WantAdmit(_) => u := Holder(st, LAdmit);
      case CloseWant(_, p) => u := Holder(st, LProv(p));
      case ShutWait(_) => u := ShutWaits(st, t);
      case WaitRelease(l) =>
        ThreadFact(st, t);
        u := st.leases[l].state.releaser;
    }
  }

  /** Conversely, a thread that waits for somebody cannot go on. */
  lemma WaitingIsBlocked(st: State, t: Tid, u: Tid)
    requires WaitsFor(st, t, u)
    ensures !Runnable(st, t)
  {
    var pc := PcOf(st, t);
    if pc.ShutWait? && NoneOpening(st) { assert pc.reaper == Some(u); }
  }

  /** Each thread of the path waits for the next. */
  predicate WaitPath(st: State, path: seq<Tid>) {
    forall i :: 0 < i < |path| ==> WaitsFor(st, path[i - 1], path[i])
  }

  /** From a thread in a call, waits lead to a thread that can go on. */
  lemma {:induction false} PathToRunnable(st: State, t: Tid) returns (path: seq<Tid>)
    requires Inv(st) && ReleaseInv(st) && !PcOf(st, t).Idle?
    ensures path != [] && path[0] == t && WaitPath(st, path) && Runnable(st, path[|path| - 1])
    decreases 4 - Rank(PcOf(st, t))
  {
    if Runnable(st, t) {
      path := [t];
    } else {
      var u := BlockedWaits(st, t);
      WaitsUp(st, t, u);
      InCall(st, t, u);
      var rest := PathToRunnable(st, u);
      path := [t] + rest;
      forall i | 0 < i < |path| ensures WaitsFor(st, path[i - 1], path[i]) {
        if i > 1 { assert WaitsFor(st, rest[i - 2], rest[i - 1]); }
      }
    }
  }

  /** Nobody waits for an idle thread. */
  lemma InCall(st: State, t: Tid, u: Tid)
    requires Inv(st) && ReleaseInv(st) && WaitsFor(st, t, u)
    ensures !PcOf(st, u).Idle?
  {
    if PcOf(st, t).ShutWait? { OpenerRank(st, u); }
    if PcOf(st, t).WaitRelease? { assert Returning(st, PcOf(st, t).lease); }
  }

  /** Waiting is only ever for a higher rank. */
  ghost predicate Ranked(st: State) { forall t, u :: WaitsFor(st, t, u) ==> Rank(PcOf(st, t)) < Rank(PcOf(st, u)) }

  lemma {:induction false} RanksIncrease(st: State, path: seq<Tid>, i: nat, j: nat)
    requires Ranked(st) && WaitPath(st, path) && i < j < |path|
    ensures Rank(PcOf(st, path[i])) + (j - i) <= Rank(PcOf(st, path[j]))
    decreases j - i
  {
    assert WaitsFor(st, path[j - 1], path[j]);
    if i < j - 1 { RanksIncrease(st, path, i, j - 1); }
  }

  lemma PathRises(st: State, path: seq<Tid>)
    requires Ranked(st) && WaitPath(st, path)
    ensures forall i, j :: 0 <= i < j < |path| ==> Rank(PcOf(st, path[i])) < Rank(PcOf(st, path[j])) && path[i] != path[j]
    ensures |path| <= 5
  {
    forall i, j | 0 <= i < j < |path| ensures Rank(PcOf(st, path[i])) < Rank(PcOf(st, path[j])) && path[i] != path[j] {
      RanksIncrease(st, path, i, j);
    }
    if |path| > 1 { RanksIncrease(st, path, 0, |path| - 1); }
  }

  /** In every reachable state. */
  lemma RankedRun(max: nat, steps: seq<Step>)
    requires IsRun(Init(max), steps)
    ensures Ranked(After(Init(max), steps))
  {
    InitOk(max);
    ReleaseRun(Init(max), steps);
    var st := After(Init(max), steps);
    forall t, u | WaitsFor(st, t, u) ensures Rank(PcOf(st, t)) < Rank(PcOf(st, u)) { WaitsUp(st, t, u); }
  }

  /** In every reachable state waits go up the rank, so no path of waits comes back to a thread and
      none has more than five threads. */
  lemma NoWaitCycle(max: nat, steps: seq<Step>, path: seq<Tid>)
    requires IsRun(Init(max), steps) && WaitPath(After(Init(max), steps), path)
    ensures var st := After(Init(max), steps);
            forall i, j :: 0 <= i < j < |path| ==> Rank(PcOf(st, path[i])) < Rank(PcOf(st, path[j])) && path[i] != path[j]
    ensures |path| <= 5
  {
    RankedRun(max, steps);
    PathRises(After(Init(max), steps), path);
  }

  /** No deadlock: in every reachable state, from every thread in a call a path of waits leads to a
      thread that can take its next step; the thread itself, when it is not waiting. */
  lemma NoDeadlock(max: nat, steps: seq<Step>, t: Tid) returns (path: seq<Tid>)
    requires IsRun(Init(max), steps) && !PcOf(After(Init(max), steps), t).Idle?
    ensures var st := After(Init(max), steps);
            path != [] && path[0] == t && WaitPath(st, path) && Runnable(st, path[|path| - 1])
  {
    InitOk(max);
    ReleaseRun(Init(max), steps);
    path := PathToRunnable(After(Init(max), steps), t);
  }
}
