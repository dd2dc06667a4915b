/** One stateful call through the receipt store: begin or replay, execute, checkpoint, store, finish. */
module ReceiptDispatch {
  import opened Basics
  import opened ReceiptEnvelope
  import opened ReceiptRetention
  import opened ReceiptProtocol
  import opened ReceiptRuns
  import opened ReceiptSweep

  /** What executing a call brings about: the checkpoint it asks for, whether the writes succeed, whether
      the tool timeout passes, its result, the provisional result made from a checkpoint after a
      timeout, and the result with the warning that it was not persisted. */
  datatype Execution = Execution(
    checkpoint: Option<Fields>, checkpointWritable: bool, timedOut: bool, result: Fields, provisional: Fields,
    writable: bool, warned: Fields)

  datatype Reply = FromReceipt(answer: Answer) | Executed(envelope: Fields) | TimedOut(envelope: Fields) | Cancelled(envelope: Fields)

  /** How the wait for an earlier call of the same key ends: the request is cancelled first, or the
      earlier call signals that it is over, with its receipt as it is then. */
  datatype Wait = Interrupted(envelope: Fields) | Signalled(seen: Receipt)

  /** The steps taken lead from one state of the protocol to the other. */
  ghost predicate Driven(c: Config, start: State, labels: seq<Label>, end: State) {
    IsRun(c, start, labels) && end == Final(c, start, labels)
  }

  lemma DrivenMore(c: Config, start: State, labels: seq<Label>, mid: State, l: Label) returns (more: seq<Label>)
    requires Driven(c, start, labels, mid) && Enabled(c, mid, l)
    ensures Driven(c, start, more, Take(c, mid, l))
  {
    RunSnoc(c, start, labels, l);
    more := labels + [l];
  }

  /** After a checkpoint attempt the call runs on; its checkpoint stands exactly if it was written. */
  lemma CheckpointLeaves(c: Config, s: State, l: Label)
    requires Inv(s) && l.Checkpoint? && Enabled(c, s, l)
    ensures var s' := Take(c, s, l);
            && l.key in s'.calls && s'.calls[l.key].Running? && l.key in s'.table && s'.table[l.key].checkpointed == l.written
            && s'.started == s.started && l.key in s.table && s'.table[l.key].argumentsHash == s.table[l.key].argumentsHash
  {
    assert KeyOk(s, l.key);
    SweepInFlight(c, Recording(c, s, l.key, l.result, l.at, true), l.now, l.e, l.key);
  }

  lemma StoreLeaves(c: Config, s: State, l: Label)
    requires Inv(s) && l.Store? && Enabled(c, s, l)
    ensures var s' := Take(c, s, l);
            && l.key in s'.calls && s'.calls[l.key] == Answering(l.result, l.written) && s'.started == s.started
            && l.key in s.table && l.key in s'.table && s'.table[l.key].argumentsHash == s.table[l.key].argumentsHash
            && !s'.table[l.key].trimmed && !s'.table[l.key].evicted
  {
    assert KeyOk(s, l.key);
    SweepInFlight(c, Recording(c, s, l.key, l.result, l.at, s.table[l.key].checkpointed), l.now, l.e, l.key);
  }

  /** A retry with the same arguments is answered with this envelope, whole. */
  ghost predicate Answers(r: Receipt, argumentsHash: string, envelope: Fields) {
    && r.done && r.result == envelope
    && forall id :: Replay(id, argumentsHash, r.argumentsHash, r.evicted, r.trimmed, r.result) == Replayed(ReplayEnvelope(id, false, envelope))
  }

  /** The execution of a call, up to its result. */
  method Execute(store: ReceiptStore, key: Key, x: Execution, at: int, now: int, ghost start: State, ghost labels: seq<Label>)
    returns (result: Fields, timedOut: bool, ghost more: seq<Label>)
    requires store.Valid() && key in store.state.calls && store.state.calls[key].Running? && Driven(store.Settings(), start, labels, store.state)
    requires key in store.replays && !store.replays[key].checkpointed
    modifies store
    ensures store.Valid() && key in store.state.calls && store.state.calls[key].Running? && Driven(store.Settings(), start, more, store.state)
    ensures store.state.started == old(store.state).started
    ensures key in store.replays && store.replays[key].argumentsHash == old(store.replays)[key].argumentsHash
    ensures timedOut == (x.timedOut && !(x.checkpoint.Some? && x.checkpointWritable))
    ensures timedOut ==> !store.replays[key].checkpointed
    ensures result == if x.timedOut && !timedOut then x.provisional else x.result
  {
    var standing := false;
    more := labels;
    if x.checkpoint.Some? {
      ghost var before, l := store.state, Crash;
      standing, l := store.Checkpoint(key, x.checkpoint.value, at, now, x.checkpointWritable);
      CheckpointLeaves(store.Settings(), before, l);
      more := DrivenMore(store.Settings(), start, labels, before, l);
    }
    timedOut := x.timedOut && !standing;
    result := if x.timedOut && standing then x.provisional else x.result;
  }

  /** Storing and finishing a call that did not time out: the table ends up with the envelope returned. */
  method Conclude(store: ReceiptStore, key: Key, result: Fields, x: Execution, at: int, now: int, ghost start: State, ghost labels: seq<Label>)
    returns (envelope: Fields, ghost more: seq<Label>)
    requires store.Valid() && key in store.state.calls && store.state.calls[key].Running? && Driven(store.Settings(), start, labels, store.state)
    modifies store
    ensures store.Valid() && Driven(store.Settings(), start, more, store.state) && store.state.started == old(store.state).started
    ensures envelope == if x.writable then result else x.warned
    ensures key in store.state.answers && store.state.answers[key] == envelope
    ensures key in old(store.replays) && key in store.replays && Answers(store.replays[key], old(store.replays)[key].argumentsHash, envelope)
  {
    InFlight(store.state, key);
    ghost var before, l := store.state, Crash;
    var ok;
    ok, l := store.Complete(key, result, at, now, x.writable);
    StoreLeaves(store.Settings(), before, l);
    more := DrivenMore(store.Settings(), start, labels, before, l);
    ghost var stored := store.state;
    envelope := if ok then result else x.warned;
    store.Finish(key, if ok then None else Some(x.warned));
    more := DrivenMore(store.Settings(), start, more, stored, Label.Finish(key, if ok then map[] else x.warned));
  }

  // ---------- Waiting for a call in flight ----------

  /** The label ends the call in flight for k. */
  predicate Ends(l: Label, k: Key) { l.Crash? || ((l.Abandon? || l.Finish?) && l.key == k) }

  /** A receipt in flight, with the arguments it was begun with. */
  predicate Underway(s: State, k: Key, argumentsHash: string) {
    k in s.calls && k in s.table && s.table[k].argumentsHash == argumentsHash
  }

  lemma UnderwaySwept(c: Config, s: State, t: Table, now: int, e: Evictions, k: Key)
    requires Inv(s) && k in s.calls && k in s.table && SweepOk(c, t, now, e) && k in t && t[k] == s.table[k]
    ensures k in SweepWith(c, t, now, e) && SweepWith(c, t, now, e)[k] == s.table[k]
  {
    InFlight(s, k);
    SweepInFlight(c, t, now, e, k);
  }

  lemma UnderwayStep(c: Config, s: State, l: Label, k: Key, argumentsHash: string)
    requires Inv(s) && Enabled(c, s, l) && Underway(s, k, argumentsHash) && !Ends(l, k)
    ensures Underway(Take(c, s, l), k, argumentsHash)
  {
    assert KeyOk(s, k);
    match l {
      case Checkpoint(key, result, at, now, e, _) =>
        if key == k { CheckpointLeaves(c, s, l); } else { UnderwaySwept(c, s, Recording(c, s, key, result, at, true), now, e, k); }
      case Store(key, result, at, now, e, _) =>
        if key == k { StoreLeaves(c, s, l); }
        else { UnderwaySwept(c, s, Recording(c, s, key, result, at, s.table[key].checkpointed), now, e, k); }
      case _ =>
    }
  }

  lemma {:induction false} UnderwayRun(c: Config, s: State, labels: seq<Label>, k: Key, argumentsHash: string)
    requires Inv(s) && IsRun(c, s, labels) && Underway(s, k, argumentsHash) && forall i :: 0 <= i < |labels| ==> !Ends(labels[i], k)
    ensures Inv(Final(c, s, labels)) && Underway(Final(c, s, labels), k, argumentsHash)
    decreases |labels|
  {
    if labels != [] {
      StepKeeps(c, s, labels[0]);
      UnderwayStep(c, s, labels[0], k, argumentsHash);
      UnderwayRun(c, Take(c, s, labels[0]), labels[1..], k, argumentsHash);
    }
  }

  /** Whoever waits for a call in flight, whatever runs meanwhile, finds when that call finishes the
      envelope it returned, whole: with the same arguments it is replayed, with others refused. */
  lemma WaiterServed(c: Config, s: State, labels: seq<Label>, k: Key, warned: Fields, requestId: string, argumentsHash: string)
    requires Inv(s) && k in s.calls && k in s.table && IsRun(c, s, labels)
    requires forall i :: 0 <= i < |labels| ==> !Ends(labels[i], k)
    requires Enabled(c, Final(c, s, labels), Label.Finish(k, warned))
    ensures var s' := Take(c, Final(c, s, labels), Label.Finish(k, warned));
            && k in s'.table && k in s'.answers && s'.started == Final(c, s, labels).started
            && var r := s'.table[k];
               Replay(requestId, argumentsHash, r.argumentsHash, r.evicted, r.trimmed, r.result) ==
               if argumentsHash == s.table[k].argumentsHash then Replayed(ReplayEnvelope(requestId, false, s'.answers[k])) else KeyReused
  {
    UnderwayRun(c, s, labels, k, s.table[k].argumentsHash);
    InFlight(Final(c, s, labels), k);
  }

  /** callUnfinalized for a stateful tool, from the replay key on. A key the table knows is answered
      from its receipt, after waiting for the call in flight if there is one, and nothing is executed.
      Any other key is executed once; it stays in the table with the envelope returned unless the call
      timed out with no checkpoint standing. */
  method Call(store: ReceiptStore, requestId: string, key: Key, argumentsHash: string, wait: Wait, x: Execution, at: int, now: int)
    returns (reply: Reply, ghost labels: seq<Label>)
    requires store.Valid() && store.state.loading == {}
    modifies store
    ensures store.Valid() && Driven(store.Settings(), old(store.state), labels, store.state)
    ensures key in old(store.replays) ==>
              && store.state == old(store.state)
              && (wait.Interrupted? ==> reply == Cancelled(wait.envelope))
              && (wait.Signalled? ==>
                    var r := if old(store.replays)[key].done then old(store.replays)[key] else wait.seen;
                    reply == FromReceipt(Replay(requestId, argumentsHash, r.argumentsHash, r.evicted, r.trimmed, r.result)))
    ensures key !in old(store.replays) ==>
              && store.state.started[key] == old(store.state).started[key] + 1
              && (reply.TimedOut? <==> x.timedOut && !(x.checkpoint.Some? && x.checkpointWritable)) && !reply.FromReceipt? && !reply.Cancelled?
              && (reply.TimedOut? ==> key !in store.replays)
              && (reply.Executed? ==>
                    && key in store.state.answers && store.state.answers[key] == reply.envelope
                    && key in store.replays && Answers(store.replays[key], argumentsHash, reply.envelope))
  {
    ghost var start := store.state;
    labels := [];
    var existing := store.LookupOrBegin(key, argumentsHash);
    if existing.Some? {
      if wait.Interrupted? { return Cancelled(wait.envelope), labels; }
      var r := if existing.value.done then existing.value else wait.seen;
      return FromReceipt(Replay(requestId, argumentsHash, r.argumentsHash, r.evicted, r.trimmed, r.result)), labels;
    }
    labels := DrivenMore(store.Settings(), start, labels, start, Label.Begin(key, argumentsHash));
    var result, timedOut;
    result, timedOut, labels := Execute(store, key, x, at, now, start, labels);
    if timedOut {
      ghost var before := store.state;
      store.Abandon(key);
      labels := DrivenMore(store.Settings(), start, labels, before, Label.Abandon(key));
      return TimedOut(result), labels;
    }
    var envelope;
    envelope, labels := Conclude(store, key, result, x, at, now, start, labels);
    return Executed(envelope), labels;
  }
}
