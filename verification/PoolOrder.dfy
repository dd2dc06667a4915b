/**
 Which provider an admission evicts, over every interleaving: the least recently used of the slots
 it found idle, passing over only those that had meanwhile been locked, leased, emptied or used, or
 that would not close.
 */
module PoolOrder {
  import opened Basics
  import opened PoolProtocol
  import opened PoolSafety
  import opened PoolSteps
  import opened PoolFrames
  import opened PoolRuns

  // ---------- The moment of eviction ----------

  /** Why a candidate cannot be evicted now: its lock is held, it has no backend, it is leased, or it
      was used since it was seen. */
  predicate Spared(st: State, c: Cand) {
    || !Free(st, LSlot(c.slot))
    || c.slot !in st.slots
    || st.slots[c.slot].backend.None?
    || st.slots[c.slot].users != 0
    || st.slots[c.slot].lastUsed != c.used
  }

  /** The candidate whose turn it is can be evicted now, and was last used no later than any candidate
      still ahead, as it was seen and as it is. */
  predicate LeastRecent(st: State, hunt: Hunt) {
    && hunt.next < |hunt.cands| && StillIdle(st, hunt.cands[hunt.next])
    && forall j :: hunt.next <= j < |hunt.cands| ==>
         && st.slots[hunt.cands[hunt.next].slot].lastUsed <= hunt.cands[j].used
         && hunt.cands[j].slot in st.slots && hunt.cands[j].used <= st.slots[hunt.cands[j].slot].lastUsed
  }

  lemma LeastRecentNow(st: State, hunt: Hunt)
    requires HuntOk(st, hunt) && hunt.next < |hunt.cands| && StillIdle(st, hunt.cands[hunt.next])
    ensures LeastRecent(st, hunt)
  {
  }

  /** An admission starts closing a slot only at such a moment. */
  lemma EvictsLeastRecent(st: State, t: Tid)
    requires Inv(st) && PcOf(st, t).Try?
    ensures var pc, pc' := PcOf(st, t), PcOf(Apply(st, TryNext(t)), t);
            pc'.CloseWant? ==> LeastRecent(st, pc.hunt) && pc'.cause == Evict(pc.why, pc.hunt.cands[pc.hunt.next].slot, pc.hunt)
  {
    var pc := PcOf(st, t);
    ThreadFact(st, t);
    TryCloses(st, t, pc);
    if pc.hunt.next < |pc.hunt.cands| && StillIdle(st, pc.hunt.cands[pc.hunt.next]) { LeastRecentNow(st, pc.hunt); }
  }

  /** A turn starts a close exactly when the candidate can be evicted now. */
  lemma TryCloses(st: State, t: Tid, pc: PC)
    requires PcOf(st, t) == pc && pc.Try?
    ensures var pc' := PcOf(Apply(st, TryNext(t)), t);
            && (pc'.CloseWant? <==> pc.hunt.next < |pc.hunt.cands| && StillIdle(st, pc.hunt.cands[pc.hunt.next]))
            && (pc'.CloseWant? ==> pc'.cause == Evict(pc.why, pc.hunt.cands[pc.hunt.next].slot, pc.hunt))
  {
    TryShape(st, t, pc);
    assert Apply(st, TryNext(t)) == DoTryNext(st, t, pc.why, pc.hunt);
  }

  lemma NotIdleIsSpared(st: State, c: Cand)
    ensures StillIdle(st, c) <==> !Spared(st, c)
  {
  }

  // ---------- What a hunt remembers ----------

  datatype Track = Track(hunt: Hunt, todo: set<SlotId>)

  predicate Closing(pc: PC) { pc.CloseWant? || pc.CloseBusy? || pc.CloseDelete? }

  /** The hunt a thread is on: scanning, trying, or closing a candidate. */
  function TrackOf(pc: PC): Option<Track> {
    if pc.Scan? then Some(Track(pc.hunt, pc.todo))
    else if pc.Try? then Some(Track(pc.hunt, {}))
    else if Closing(pc) && pc.cause.Evict? then Some(Track(pc.cause.hunt, {}))
    else None
  }

  /** How one step of its own changes the hunt a thread is on. */
  predicate Tracks(st: State, step: Step, was: Option<Track>, now: Track) {
    match step
    case AdmitStep(_, _) => now == Track(Hunt({}, [], 0), st.visible)
    case ScanSlot(_, s) =>
      && was.Some? && s in was.value.todo && now.todo == was.value.todo - {s}
      && now.hunt.seen == was.value.hunt.seen + {s} && now.hunt.next == was.value.hunt.next
      && now.hunt.cands == was.value.hunt.cands + if IdleSlot(st, s) then [Cand(s, st.slots[s].lastUsed)] else []
    case ScanDone(_, sorted) =>
      && was.Some? && now == Track(Hunt(was.value.hunt.seen, sorted, 0), was.value.todo)
      && multiset(sorted) == multiset(was.value.hunt.cands)
    case _ =>
      && was.Some? && now.todo == was.value.todo
      && (now.hunt == was.value.hunt || (now.hunt == was.value.hunt.(next := was.value.hunt.next + 1) && Passes(st, step, was.value.hunt)))
  }

  /** The step at which a thread gives up its current candidate. */
  predicate Passes(st: State, step: Step, hunt: Hunt) {
    && hunt.next < |hunt.cands|
    && (|| (step.TryNext? && Spared(st, hunt.cands[hunt.next]))
        || (step.CloseReturns? && !step.ok && PcOf(st, step.t).CloseBusy? && PcOf(st, step.t).cause.Evict?
            && PcOf(st, step.t).cause.slot == hunt.cands[hunt.next].slot))
  }

  lemma TrackStep(st: State, step: Step)
    requires Inv(st) && Enabled(st, step) && TrackOf(PcOf(Apply(st, step), step.t)).Some?
    ensures Tracks(st, step, TrackOf(PcOf(st, step.t)), TrackOf(PcOf(Apply(st, step), step.t)).value)
  {
    if IsAdmission(step) { AdmissionTracks(st, step); }
    else if IsClosing(step) { ClosingTracks(st, step); }
    else { OthersTrackNothing(st, step); }
  }

  lemma AdmissionTracks(st: State, step: Step)
    requires Inv(st) && Enabled(st, step) && IsAdmission(step) && TrackOf(PcOf(Apply(st, step), step.t)).Some?
    ensures Tracks(st, step, TrackOf(PcOf(st, step.t)), TrackOf(PcOf(Apply(st, step), step.t)).value)
  {
    if step.TryNext? { TryTracks(st, step); }
    else if step.AdmitStep? { AdmitTracks(st, step); }
    else if step.ScanSlot? { ScanTracks(st, step); }
    else if step.ScanDone? { ScanDoneTracks(st, step); }
    else { LockAdmitTracksNothing(st, step); }
  }

  lemma TryTracks(st: State, step: Step)
    requires Enabled(st, step) && step.TryNext? && TrackOf(PcOf(Apply(st, step), step.t)).Some?
    ensures Tracks(st, step, TrackOf(PcOf(st, step.t)), TrackOf(PcOf(Apply(st, step), step.t)).value)
  {
    var pc := PcOf(st, step.t);
    TryShape(st, step.t, pc);
    if pc.hunt.next < |pc.hunt.cands| { NotIdleIsSpared(st, pc.hunt.cands[pc.hunt.next]); }
  }

  lemma AdmitTracks(st: State, step: Step)
    requires Enabled(st, step) && step.AdmitStep? && TrackOf(PcOf(Apply(st, step), step.t)).Some?
    ensures Tracks(st, step, TrackOf(PcOf(st, step.t)), TrackOf(PcOf(Apply(st, step), step.t)).value)
  {
    assert Apply(st, step) == DoAdmit(st, step.t, PcOf(st, step.t).why, step.p);
  }

  lemma ScanTracks(st: State, step: Step)
    requires Enabled(st, step) && step.ScanSlot? && TrackOf(PcOf(Apply(st, step), step.t)).Some?
    ensures Tracks(st, step, TrackOf(PcOf(st, step.t)), TrackOf(PcOf(Apply(st, step), step.t)).value)
  {
  }

  lemma ScanDoneTracks(st: State, step: Step)
    requires Enabled(st, step) && step.ScanDone? && TrackOf(PcOf(Apply(st, step), step.t)).Some?
    ensures Tracks(st, step, TrackOf(PcOf(st, step.t)), TrackOf(PcOf(Apply(st, step), step.t)).value)
  {
  }

  lemma LockAdmitTracksNothing(st: State, step: Step)
    requires Enabled(st, step) && step.LockAdmit?
    ensures TrackOf(PcOf(Apply(st, step), step.t)) == None
  {
  }

  lemma FinishTracks(st: State, t: Tid, c: Cause, ok: bool)
    ensures var now := TrackOf(PcOf(Finish(st, t, c, ok), t));
            now.Some? ==> !ok && c.Evict? && now.value == Track(c.hunt.(next := c.hunt.next + 1), {})
  {
  }

  /** An evictor closes the candidate whose turn it is. */
  predicate EvictsTurn(pc: PC) {
    Closing(pc) && pc.cause.Evict? ==>
      var hunt := pc.cause.hunt; hunt.next < |hunt.cands| && hunt.cands[hunt.next].slot == pc.cause.slot
  }

  lemma EvictorTurn(st: State, t: Tid)
    requires Inv(st)
    ensures EvictsTurn(PcOf(st, t))
  {
    ThreadFact(st, t);
  }

  lemma CloseReturnsTracks(st: State, step: Step)
    requires EvictsTurn(PcOf(st, step.t)) && Enabled(st, step) && step.CloseReturns? && TrackOf(PcOf(Apply(st, step), step.t)).Some?
    ensures Tracks(st, step, TrackOf(PcOf(st, step.t)), TrackOf(PcOf(Apply(st, step), step.t)).value)
  {
    FinishTracks(st, step.t, PcOf(st, step.t).cause, false);
  }

  lemma ClosingTracks(st: State, step: Step)
    requires Inv(st) && Enabled(st, step) && IsClosing(step) && TrackOf(PcOf(Apply(st, step), step.t)).Some?
    ensures Tracks(st, step, TrackOf(PcOf(st, step.t)), TrackOf(PcOf(Apply(st, step), step.t)).value)
  {
    EvictorTurn(st, step.t);
    if step.CloseReturns? { CloseReturnsTracks(st, step); }
    else if step.LockProv? { LockProvTracks(st, step); }
    else { DeleteTracksNothing(st, step); }
  }

  lemma LockProvTracks(st: State, step: Step)
    requires Enabled(st, step) && step.LockProv? && TrackOf(PcOf(Apply(st, step), step.t)).Some?
    ensures Tracks(st, step, TrackOf(PcOf(st, step.t)), TrackOf(PcOf(Apply(st, step), step.t)).value)
  {
    FinishTracks(st, step.t, PcOf(st, step.t).cause, true);
  }

  lemma DeleteTracksNothing(st: State, step: Step)
    requires Enabled(st, step) && step.DeleteOwned?
    ensures TrackOf(PcOf(Apply(st, step), step.t)) == None
  {
    var pc := PcOf(st, step.t);
    FinishTracks(SetStatus(st, pc.prov, Closed).(owned := st.owned - {pc.prov}), step.t, pc.cause, true);
  }

  lemma OthersTrackNothing(st: State, step: Step)
    requires Enabled(st, step) && !IsAdmission(step) && !IsClosing(step)
    ensures TrackOf(PcOf(Apply(st, step), step.t)) == None
  {
    if IsLeasing(step) || step.RestartUse? { UsesTrackNothing(st, step); }
    else if IsSlotSection(step) { SectionsTrackNothing(st, step); }
    else if IsCall(step) { CallsTrackNothing(st, step); }
    else if step.ReapSlot? { ReapTracksNothing(st, step); }
  }

  lemma UsesTrackNothing(st: State, step: Step)
    requires Enabled(st, step) && (IsLeasing(step) || step.RestartUse?)
    ensures TrackOf(PcOf(Apply(st, step), step.t)) == None
  {
  }

  lemma CallsTrackNothing(st: State, step: Step)
    requires Enabled(st, step) && IsCall(step)
    ensures TrackOf(PcOf(Apply(st, step), step.t)) == None
  {
  }

  lemma ReapTracksNothing(st: State, step: Step)
    requires Enabled(st, step) && step.ReapSlot?
    ensures TrackOf(PcOf(Apply(st, step), step.t)) == None
  {
  }

  lemma SectionsTrackNothing(st: State, step: Step)
    requires Enabled(st, step) && IsSlotSection(step) && !IsLeasing(step) && !step.RestartUse?
    ensures TrackOf(PcOf(Apply(st, step), step.t)) == None
  {
  }

  // ---------- Over whole runs ----------

  lemma {:induction false} PrefixRun(st: State, steps: seq<Step>, k: nat)
    requires IsRun(st, steps) && k <= |steps|
    ensures IsRun(st, steps[..k])
    decreases |steps|
  {
    if k > 0 {
      PrefixRun(Apply(st, steps[0]), steps[1..], k - 1);
      assert steps[..k][1..] == steps[1..][..k - 1];
    }
  }

  lemma {:induction false} LastStep(st: State, steps: seq<Step>, n: nat)
    requires IsRun(st, steps) && |steps| == n + 1 && IsRun(st, steps[..n])
    ensures Enabled(After(st, steps[..n]), steps[n]) && After(st, steps) == Apply(After(st, steps[..n]), steps[n])
    decreases n
  {
    if n > 0 {
      assert steps[..n][1..] == steps[1..][..n - 1];
      PrefixRun(Apply(st, steps[0]), steps[1..], n - 1);
      LastStep(Apply(st, steps[0]), steps[1..], n - 1);
    } else {
      assert steps[1..] == [];
    }
  }

  /** The state before step k. */
  function StateAt(max: nat, steps: seq<Step>, k: nat): State
    requires IsRun(Init(max), steps) && k <= |steps|
  {
    PrefixRun(Init(max), steps, k);
    After(Init(max), steps[..k])
  }

  /** Step k belongs to the hunt t is on: t has not begun another one since. */
  predicate ThisHunt(steps: seq<Step>, k: nat, t: Tid) {
    k < |steps| && steps[k].t == t && forall m :: k < m < |steps| ==> !(steps[m].t == t && steps[m].AdmitStep?)
  }

  /** At step k the hunt looked at slot s and did not find it idle. */
  predicate SkippedAt(max: nat, steps: seq<Step>, k: nat, t: Tid, s: SlotId)
    requires IsRun(Init(max), steps)
  {
    ThisHunt(steps, k, t) && steps[k] == ScanSlot(t, s) && !IdleSlot(StateAt(max, steps, k), s)
  }

  /** At step k the hunt gave up candidate c: it could not be evicted then, or its close failed. */
  predicate PassedAt(max: nat, steps: seq<Step>, k: nat, t: Tid, c: Cand)
    requires IsRun(Init(max), steps)
  {
    && ThisHunt(steps, k, t)
    && (|| (steps[k] == TryNext(t) && Spared(StateAt(max, steps, k), c))
        || (steps[k] == CloseReturns(t, false) && PcOf(StateAt(max, steps, k), t).CloseBusy?
            && PcOf(StateAt(max, steps, k), t).cause.Evict? && PcOf(StateAt(max, steps, k), t).cause.slot == c.slot))
  }

  /** At step k the hunt began, over the slots then in the map. */
  predicate BeganAt(max: nat, steps: seq<Step>, k: nat, t: Tid, track: Track)
    requires IsRun(Init(max), steps)
  {
    ThisHunt(steps, k, t) && steps[k].AdmitStep? && StateAt(max, steps, k).visible == track.hunt.seen + track.todo
  }

  predicate Listed(hunt: Hunt, s: SlotId) { exists i :: 0 <= i < |hunt.cands| && hunt.cands[i].slot == s }

  ghost predicate SlotExplained(max: nat, steps: seq<Step>, t: Tid, hunt: Hunt, s: SlotId)
    requires IsRun(Init(max), steps)
  {
    Listed(hunt, s) || exists k :: SkippedAt(max, steps, k, t, s)
  }

  ghost predicate CandExplained(max: nat, steps: seq<Step>, t: Tid, c: Cand)
    requires IsRun(Init(max), steps)
  {
    exists k :: PassedAt(max, steps, k, t, c)
  }

  /** Every slot of the map the hunt began with is a candidate, was not idle when looked at, or is still
      to be looked at; every candidate before the current one was given up for a reason. */
  ghost predicate Explained(max: nat, steps: seq<Step>, t: Tid, track: Track)
    requires IsRun(Init(max), steps)
  {
    && (exists k :: BeganAt(max, steps, k, t, track))
    && (forall s :: s in track.hunt.seen ==> SlotExplained(max, steps, t, track.hunt, s))
    && TriedExplained(max, steps, t, track.hunt)
  }

  ghost predicate TriedExplained(max: nat, steps: seq<Step>, t: Tid, hunt: Hunt)
    requires IsRun(Init(max), steps)
  {
    forall j :: 0 <= j < hunt.next && j < |hunt.cands| ==> CandExplained(max, steps, t, hunt.cands[j])
  }

  // Reasons found in a prefix stay reasons while the thread is on the same hunt.

  lemma LongerHunt(steps: seq<Step>, n: nat, t: Tid, k: nat)
    requires |steps| == n + 1 && ThisHunt(steps[..n], k, t) && !(steps[n].t == t && steps[n].AdmitStep?)
    ensures ThisHunt(steps, k, t)
  {
    forall m | k < m < |steps| ensures !(steps[m].t == t && steps[m].AdmitStep?) {
      if m < n { assert steps[m] == steps[..n][m]; }
    }
  }

  lemma Longer(max: nat, steps: seq<Step>, n: nat, t: Tid, k: nat)
    requires IsRun(Init(max), steps) && |steps| == n + 1 && IsRun(Init(max), steps[..n])
    requires ThisHunt(steps[..n], k, t) && !(steps[n].t == t && steps[n].AdmitStep?)
    ensures StateAt(max, steps, k) == StateAt(max, steps[..n], k) && steps[k] == steps[..n][k]
    ensures ThisHunt(steps, k, t)
  {
    assert steps[..n][..k] == steps[..k];
    LongerHunt(steps, n, t, k);
  }

  lemma LongerSlot(max: nat, steps: seq<Step>, n: nat, t: Tid, s: SlotId, k: nat)
    requires IsRun(Init(max), steps) && |steps| == n + 1 && IsRun(Init(max), steps[..n]) && SkippedAt(max, steps[..n], k, t, s)
    requires !(steps[n].t == t && steps[n].AdmitStep?)
    ensures SkippedAt(max, steps, k, t, s)
  {
    Longer(max, steps, n, t, k);
  }

  lemma LongerCand(max: nat, steps: seq<Step>, n: nat, t: Tid, c: Cand, k: nat)
    requires IsRun(Init(max), steps) && |steps| == n + 1 && IsRun(Init(max), steps[..n]) && PassedAt(max, steps[..n], k, t, c)
    requires !(steps[n].t == t && steps[n].AdmitStep?)
    ensures PassedAt(max, steps, k, t, c)
  {
    Longer(max, steps, n, t, k);
  }

  lemma LongerBegan(max: nat, steps: seq<Step>, n: nat, t: Tid, was: Track, now: Track)
    requires IsRun(Init(max), steps) && |steps| == n + 1 && IsRun(Init(max), steps[..n])
    requires (exists k :: BeganAt(max, steps[..n], k, t, was)) && was.hunt.seen + was.todo == now.hunt.seen + now.todo
    requires !(steps[n].t == t && steps[n].AdmitStep?)
    ensures exists k :: BeganAt(max, steps, k, t, now)
  {
    var k :| BeganAt(max, steps[..n], k, t, was);
    Longer(max, steps, n, t, k);
    assert BeganAt(max, steps, k, t, now);
  }

  lemma ListedStays(was: Hunt, now: Hunt, s: SlotId)
    requires Listed(was, s) && multiset(was.cands) <= multiset(now.cands)
    ensures Listed(now, s)
  {
    var i :| 0 <= i < |was.cands| && was.cands[i].slot == s;
    assert was.cands[i] in multiset(was.cands);
    assert was.cands[i] in now.cands;
  }

  lemma LongerSlotExplained(max: nat, steps: seq<Step>, n: nat, t: Tid, was: Hunt, now: Hunt, s: SlotId)
    requires IsRun(Init(max), steps) && |steps| == n + 1 && IsRun(Init(max), steps[..n])
    requires SlotExplained(max, steps[..n], t, was, s) && multiset(was.cands) <= multiset(now.cands)
    requires !(steps[n].t == t && steps[n].AdmitStep?)
    ensures SlotExplained(max, steps, t, now, s)
  {
    if Listed(was, s) {
      ListedStays(was, now, s);
    } else {
      var k :| SkippedAt(max, steps[..n], k, t, s);
      LongerSlot(max, steps, n, t, s, k);
    }
  }

  lemma LongerCandExplained(max: nat, steps: seq<Step>, n: nat, t: Tid, c: Cand)
    requires IsRun(Init(max), steps) && |steps| == n + 1 && IsRun(Init(max), steps[..n]) && CandExplained(max, steps[..n], t, c)
    requires !(steps[n].t == t && steps[n].AdmitStep?)
    ensures CandExplained(max, steps, t, c)
  {
    var k :| PassedAt(max, steps[..n], k, t, c);
    LongerCand(max, steps, n, t, c, k);
  }

  lemma TriedLonger(max: nat, steps: seq<Step>, n: nat, t: Tid, hunt: Hunt)
    requires IsRun(Init(max), steps) && |steps| == n + 1 && IsRun(Init(max), steps[..n])
    requires TriedExplained(max, steps[..n], t, hunt) && !(steps[n].t == t && steps[n].AdmitStep?)
    ensures TriedExplained(max, steps, t, hunt)
  {
    forall j | 0 <= j < hunt.next && j < |hunt.cands| ensures CandExplained(max, steps, t, hunt.cands[j]) {
      LongerCandExplained(max, steps, n, t, hunt.cands[j]);
    }
  }

  lemma TriedNext(max: nat, steps: seq<Step>, t: Tid, hunt: Hunt)
    requires IsRun(Init(max), steps) && TriedExplained(max, steps, t, hunt)
    requires hunt.next < |hunt.cands| && CandExplained(max, steps, t, hunt.cands[hunt.next])
    ensures TriedExplained(max, steps, t, hunt.(next := hunt.next + 1))
  {
    var h := hunt.(next := hunt.next + 1);
    forall j | 0 <= j < h.next && j < |h.cands| ensures CandExplained(max, steps, t, h.cands[j]) {
      assert j < hunt.next || j == hunt.next;
    }
  }

  /** A hunt explained before a step stays explained if the step adds reasons for what it adds. */
  lemma KeepExplained(max: nat, steps: seq<Step>, n: nat, t: Tid, was: Track, now: Track)
    requires IsRun(Init(max), steps) && |steps| == n + 1 && IsRun(Init(max), steps[..n])
    requires Explained(max, steps[..n], t, was) && !(steps[n].t == t && steps[n].AdmitStep?)
    requires was.hunt.seen + was.todo == now.hunt.seen + now.todo && multiset(was.hunt.cands) <= multiset(now.hunt.cands)
    requires forall s :: s in now.hunt.seen && s !in was.hunt.seen ==> SlotExplained(max, steps, t, now.hunt, s)
    requires TriedExplained(max, steps, t, now.hunt)
    ensures Explained(max, steps, t, now)
  {
    LongerBegan(max, steps, n, t, was, now);
    forall s | s in now.hunt.seen ensures SlotExplained(max, steps, t, now.hunt, s) {
      if s in was.hunt.seen { LongerSlotExplained(max, steps, n, t, was.hunt, now.hunt, s); }
    }
  }

  lemma SameExplained(max: nat, steps: seq<Step>, n: nat, t: Tid, track: Track)
    requires IsRun(Init(max), steps) && |steps| == n + 1 && IsRun(Init(max), steps[..n])
    requires Explained(max, steps[..n], t, track) && !(steps[n].t == t && steps[n].AdmitStep?)
    ensures Explained(max, steps, t, track)
  {
    TriedLonger(max, steps, n, t, track.hunt);
    KeepExplained(max, steps, n, t, track, track);
  }

  lemma ThisStep(max: nat, steps: seq<Step>, n: nat)
    requires IsRun(Init(max), steps) && |steps| == n + 1 && IsRun(Init(max), steps[..n])
    ensures StateAt(max, steps, n) == After(Init(max), steps[..n]) && ThisHunt(steps, n, steps[n].t)
  {
  }

  lemma AdmitExplained(max: nat, steps: seq<Step>, n: nat, track: Track)
    requires IsRun(Init(max), steps) && |steps| == n + 1 && IsRun(Init(max), steps[..n]) && steps[n].AdmitStep?
    requires track == Track(Hunt({}, [], 0), After(Init(max), steps[..n]).visible)
    ensures Explained(max, steps, steps[n].t, track)
  {
    ThisStep(max, steps, n);
    assert BeganAt(max, steps, n, steps[n].t, track);
  }

  lemma NewListed(was: Hunt, now: Hunt, s: SlotId, used: int)
    requires now.cands == was.cands + [Cand(s, used)]
    ensures Listed(now, s)
  {
    assert now.cands[|was.cands|].slot == s;
  }

  /** Slot s was looked at. */
  predicate Scans(was: Track, now: Track, s: SlotId) {
    && now.hunt.seen == was.hunt.seen + {s} && was.hunt.seen + was.todo == now.hunt.seen + now.todo
    && multiset(was.hunt.cands) <= multiset(now.hunt.cands)
  }

  lemma ScanExplained(max: nat, steps: seq<Step>, n: nat, was: Track, now: Track)
    requires IsRun(Init(max), steps) && |steps| == n + 1 && IsRun(Init(max), steps[..n]) && steps[n].ScanSlot?
    requires Explained(max, steps[..n], steps[n].t, was) && Scans(was, now, steps[n].s) && now.hunt.next == 0
    requires SlotExplained(max, steps, steps[n].t, now.hunt, steps[n].s)
    ensures Explained(max, steps, steps[n].t, now)
  {
    KeepExplained(max, steps, n, steps[n].t, was, now);
  }

  lemma LookedAt(max: nat, steps: seq<Step>, n: nat, was: Track, now: Track)
    requires IsRun(Init(max), steps) && |steps| == n + 1 && IsRun(Init(max), steps[..n]) && steps[n].ScanSlot?
    requires Tracks(After(Init(max), steps[..n]), steps[n], Some(was), now)
    ensures SlotExplained(max, steps, steps[n].t, now.hunt, steps[n].s) && Scans(was, now, steps[n].s)
  {
    var s, st := steps[n].s, After(Init(max), steps[..n]);
    ThisStep(max, steps, n);
    if IdleSlot(st, s) { NewListed(was.hunt, now.hunt, s, st.slots[s].lastUsed); } else { assert SkippedAt(max, steps, n, steps[n].t, s); }
  }

  lemma PassedHere(max: nat, steps: seq<Step>, n: nat, hunt: Hunt)
    requires IsRun(Init(max), steps) && |steps| == n + 1 && IsRun(Init(max), steps[..n])
    requires Passes(After(Init(max), steps[..n]), steps[n], hunt)
    ensures CandExplained(max, steps, steps[n].t, hunt.cands[hunt.next])
  {
    ThisStep(max, steps, n);
    assert PassedAt(max, steps, n, steps[n].t, hunt.cands[hunt.next]);
  }

  lemma PassExplained(max: nat, steps: seq<Step>, n: nat, t: Tid, was: Track, now: Track)
    requires IsRun(Init(max), steps) && |steps| == n + 1 && IsRun(Init(max), steps[..n]) && !steps[n].AdmitStep?
    requires Explained(max, steps[..n], t, was) && was.hunt.next < |was.hunt.cands|
    requires CandExplained(max, steps, t, was.hunt.cands[was.hunt.next])
    requires now == was.(hunt := was.hunt.(next := was.hunt.next + 1))
    ensures Explained(max, steps, t, now)
  {
    TriedLonger(max, steps, n, t, was.hunt);
    TriedNext(max, steps, t, was.hunt);
    KeepExplained(max, steps, n, t, was, now);
  }

  lemma OwnStepExplained(max: nat, steps: seq<Step>, n: nat, was: Option<Track>, now: Track)
    requires IsRun(Init(max), steps) && |steps| == n + 1 && IsRun(Init(max), steps[..n])
    requires was.Some? ==> Explained(max, steps[..n], steps[n].t, was.value)
    requires steps[n].ScanSlot? && was.Some? ==> was.value.hunt.next == 0
    requires Tracks(After(Init(max), steps[..n]), steps[n], was, now)
    ensures Explained(max, steps, steps[n].t, now)
  {
    if steps[n].AdmitStep? { AdmitExplained(max, steps, n, now); }
    else if steps[n].ScanSlot? {
      LookedAt(max, steps, n, was.value, now);
      ScanExplained(max, steps, n, was.value, now);
    }
    else if steps[n].ScanDone? { KeepExplained(max, steps, n, steps[n].t, was.value, now); }
    else if now.hunt == was.value.hunt { SameExplained(max, steps, n, steps[n].t, now); }
    else {
      PassedHere(max, steps, n, was.value.hunt);
      PassExplained(max, steps, n, steps[n].t, was.value, now);
    }
  }

  /** Over every run: whenever a thread is on a hunt, every slot of the map it began with is accounted
      for, and so is every candidate it passed over. */
  lemma {:induction false} HuntExplained(max: nat, steps: seq<Step>, t: Tid)
    requires IsRun(Init(max), steps)
    ensures var track := TrackOf(PcOf(After(Init(max), steps), t)); track.Some? ==> Explained(max, steps, t, track.value)
    decreases |steps|
  {
    if steps != [] {
      var n := |steps| - 1;
      PrefixRun(Init(max), steps, n);
      LastStep(Init(max), steps, n);
      HuntExplained(max, steps[..n], t);
      var st := After(Init(max), steps[..n]);
      InitOk(max);
      RunKeeps(Init(max), steps[..n]);
      HuntExplainedStep(max, steps, n, st, t);
    }
  }

  lemma HuntExplainedStep(max: nat, steps: seq<Step>, n: nat, st: State, t: Tid)
    requires IsRun(Init(max), steps) && |steps| == n + 1 && IsRun(Init(max), steps[..n]) && st == After(Init(max), steps[..n])
    requires Inv(st) && Enabled(st, steps[n])
    requires TrackOf(PcOf(st, t)).Some? ==> Explained(max, steps[..n], t, TrackOf(PcOf(st, t)).value)
    ensures var track := TrackOf(PcOf(Apply(st, steps[n]), t)); track.Some? ==> Explained(max, steps, t, track.value)
  {
    var track := TrackOf(PcOf(Apply(st, steps[n]), t));
    if steps[n].t != t {
      OthersStay(st, steps[n], t);
      if track.Some? { SameExplained(max, steps, n, t, track.value); }
    } else if track.Some? {
      ThreadFact(st, t);
      TrackStep(st, steps[n]);
      OwnStepExplained(max, steps, n, TrackOf(PcOf(st, t)), track.value);
    }
  }

  /** LRU eviction under interleaving: when an admission starts closing a slot, the slot is the least
      recently used idle one among the candidates left, each candidate before it was locked, empty,
      leased or used since when its turn came, or failed to close, and every other slot the map held
      when the hunt began was not idle when it was looked at. */
  lemma EvictionOrder(max: nat, steps: seq<Step>, t: Tid)
    requires IsRun(Init(max), steps) && PcOf(After(Init(max), steps), t).Try?
    ensures var st := After(Init(max), steps);
            var pc, pc' := PcOf(st, t), PcOf(Apply(st, TryNext(t)), t);
            pc'.CloseWant? ==>
              && LeastRecent(st, pc.hunt) && pc'.cause == Evict(pc.why, pc.hunt.cands[pc.hunt.next].slot, pc.hunt)
              && Explained(max, steps, t, Track(pc.hunt, {}))
  {
    InitOk(max);
    RunKeeps(Init(max), steps);
    EvictsLeastRecent(After(Init(max), steps), t);
    HuntExplained(max, steps, t);
  }
}
