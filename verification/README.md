# Huyang: verified model of the transactional workspace service

Huyang serves agents that read and edit workspaces. This project models the parts of it whose
correctness spans many calls, threads or restarts, and proves what they promise:

- **Provider pool** (`PoolProtocol`, `PoolSafety`, `PoolSteps`, `PoolFrames`, `PoolRuns`,
  `PoolLiveness`, `PoolOrder`, `PoolShutdown`, `PoolCalls`, `PoolEviction`). A bounded allocator of editor processes shared by concurrent
  callers: reservations, leases, LRU eviction with TryLock, reaping, restart, shutdown. All but the
  last are a state machine with one step per critical section and theorems over every
  interleaving; `PoolEviction` is the loops as one thread runs them.
- **Idempotency receipts** (`ReceiptEnvelope`, `ReceiptRetention`, `ReceiptSweep`,
  `ReceiptSweepLaws`, `ReceiptProtocol`, `ReceiptRuns`, `ReceiptRefinement`, `ReceiptSizes`,
  `ReceiptDispatch`). What a receipt holds and what trimming keeps of it; the at-most-once protocol
  through checkpoints, crashes and restarts as a state machine; the store as a class each of whose
  operations is proved to be a step of that protocol, so that the theorems about runs are about it;
  and one whole call through it.
- **Call correlation** (`Decimals`, `CorrelationNumber`, `CorrelationEncoding`,
  `CorrelationUnicode`). The decimal normal form of JSON numbers, the canonical encoding that is
  authenticated, and the scanner for surrogate pairs.
- **Revision evidence** (`RevisionRange`, `RevisionTiles`, `RevisionCoverage`, `RevisionGaps`,
  `NetEffect`). Which revisions the receipts cover, which gaps observations fill, and the net
  change of a range; also the merged record of a list of edit operations.
- **Algorithms against a plain definition** (`EditDistance`, `LineWindows`, `ByteWindows`,
  `RangeEdits`, `Diagnostics`) and the **workspace registry** under two locks
  (`WorkspaceRegistry`).

`Basics` and `Sorting` hold what these share: `Option`, the byte order of strings, and sorting as a
caller of the library sort may rely on it.

`dafny verify dfyconfig.toml` checks everything.

How to read the state machines: `Enabled` says when a step can be taken and a second function gives
the next state; a run is any sequence of enabled steps, so every statement about runs holds for
every interleaving. History fields (executions started, answers given, objects published) are
written and never read by the guards.

## Model

| member | source | states |
|---|---|---|
| `PoolRuns.StepKeeps` | internal/providerpool/provider_pool.go:80-231 | every step of every thread (lookup, lease, replacement, admission, eviction, open, close, reap, shutdown) keeps the pool invariant |
| `PoolRuns.RunKeeps` | internal/providerpool/provider_limits.go:37-161 | the invariant holds after every interleaving of steps |
| `PoolRuns.CapacityBound` | internal/providerpool/provider_limits.go:59-82 | in every reachable state reservations are at most MaxProviders, every provider that opened and was not successfully closed still holds one, and each reservation belongs to a provider that is opening, live or being returned |
| `PoolRuns.LeasesCounted` | internal/providerpool/provider_reap.go:21-33 | a slot's user count is the number of its unreleased leases, also when a release function is called repeatedly |
| `PoolRuns.GenerationsIncrease` | internal/providerpool/provider_limits.go:125-136 | the epochs of successive backends of one slot strictly increase through eviction, reaping, restart and unhealthy replacement |
| `PoolRuns.NoHalfOpenedClosed` | internal/providerpool/provider_pool.go:196-231 | no provider whose open has not returned is ever being closed |
| `PoolRuns.LeasedNotClosing` | internal/providerpool/provider_reap.go:65-87 | while a lease on a provider is out nobody is closing it, during a shutdown or before, except one of the closes Pool.Close itself makes |
| `PoolRuns.CloseRespectsLeases` | internal/providerpool/provider_limits.go:96-136 | in every run, a step that takes a leased provider out of life is the return of a close that Pool.Close itself made |
| `PoolRuns.ShutdownGrantsNothing` | internal/providerpool/provider_limits.go:64-69 | once shutdown has begun no reservation is granted in any continuation |
| `PoolShutdown.ShutdownBegins` | internal/providerpool/provider_pool.go:196-210 | in every run a shutdown detaches the map only when nothing is opening and the reaper it joined has stopped, takes over exactly the slots then in the map and leaves it empty |
| `PoolShutdown.ShutdownCloses` | internal/providerpool/provider_pool.go:211-230 | when Pool.Close returns nothing is opening, and every provider still alive, a slot's or a sandbox's, is one whose close the shutdown tried in its last pass and that returned an error, whatever other threads did meanwhile |
| `PoolShutdown.CleanShutdown` | internal/providerpool/provider_pool.go:196-230 | if none of its closes failed, no provider is alive when Pool.Close returns, and every reservation left is being returned by a thread inside that provider's Close |
| `PoolShutdown.SlotsEmptied` | internal/providerpool/provider_pool.go:211-218 | every slot of the map it detached is empty when Pool.Close returns, whether or not its close succeeded, and nobody is about to install a backend there |
| `PoolRuns.EvictsAtMostOnce` | internal/providerpool/provider_limits.go:64-81 | an admission that has evicted a provider finds room next, or the pool closed, so it never evicts a second one |
| `PoolCalls.AnyCall` | internal/providerpool/provider_pool.go:80-236 | the model restricts no caller: an idle thread may make any call at any time, for any slot of the map or a new one, and release or close whatever was given out |
| `PoolCalls.AnyOutcome` | internal/providerpool/provider_pool.go:114-142 | nor any outcome: health checks, cancellations, idle times, opens and closes may go either way |
| `PoolCalls.CanonicalReturns` | internal/providerpool/provider_pool.go:109-144 | a call of Canonical returns only with one new lease on the backend of its slot, or because the pool is closed, the call was cancelled, the backend is unhealthy and in use, no slot could be evicted, or an open or a close failed |
| `PoolCalls.CanonicalDecides` | internal/providerpool/provider_pool.go:122-134 | a healthy backend is leased as it is, an unhealthy one nobody uses is closed for replacement, an unhealthy one in use refuses the call, and only with no backend admission is asked for: each exactly then |
| `PoolCalls.ExistingReturns` | internal/providerpool/provider_pool.go:150-161 | Existing leases the slot's backend exactly when there is one and the pool is open, and otherwise changes nothing |
| `PoolCalls.ClosedRefuses` | internal/providerpool/provider_pool.go:114-119 | once the pool is closed, a call of Canonical or Existing that takes its slot is refused at once and changes nothing |
| `PoolCalls.ReleaseReturns` | internal/providerpool/provider_reap.go:21-33 | the first release takes exactly its lease back, counts the slot's users down by one and records the time |
| `PoolCalls.AdmitDecides` | internal/providerpool/provider_limits.go:63-82 | one turn of the admission is refused exactly when the pool is closed, granted with one reservation exactly when there is room, and otherwise hunts among all slots of the map |
| `PoolCalls.EvictionEnds` | internal/providerpool/provider_limits.go:105-123 | an eviction whose close failed moves on to the next candidate; one that ended well empties the slot and marks the admission as having evicted, which is what `PoolRuns.EvictsAtMostOnce` is about |
| `PoolCalls.RestartDecides` | internal/providerpool/provider_pool.go:164-177 | Restart refuses a slot in use, closes an unused backend, and goes on as Canonical for the same slot when there is none |
| `PoolCalls.RestartGoesOn` | internal/providerpool/provider_pool.go:171-177 | after a close that ended well Restart asks for the same slot as Canonical; after a failed one it returns |
| `PoolCalls.ReapDecides` | internal/providerpool/provider_reap.go:65-87 | the reaper closes a slot's backend exactly when nobody holds or uses the slot and it is due, and otherwise leaves it alone |
| `PoolCalls.ReapBegins` | internal/providerpool/provider_reap.go:45-52 | a reaping walk sets out with every slot of the map |
| `PoolCalls.ReapVisitsAll` | internal/providerpool/provider_reap.go:40-63 | over every run, a reaper looks at every slot it set out with before it is done |
| `PoolFrames.StepFrame` | internal/providerpool/provider_pool.go:109-177 | which parts of the pool each kind of step may change: reservations only grow in an admission of an open pool, a provider changes only under the thread opening or closing it, no other thread moves, a lease changes only by its release |
| `PoolLiveness.RunnableStep` | internal/providerpool/provider_limits.go:84-123 | a thread that does not wait for a lock or for openers always has an enabled step of its own call |
| `PoolLiveness.WaitsUp` | internal/providerpool/provider_limits.go:37-51 | a thread waits only for threads of higher rank: joins (shutdown, repeated release) below slot lock below admission lock below provider lock below everything that does not wait |
| `PoolLiveness.BlockedWaits` | internal/providerpool/provider_limits.go:59-63 | a thread in a call that cannot take its next step waits for some thread: the holder of the lock it wants, an opener, the reaper it joins or the releaser |
| `PoolLiveness.WaitingIsBlocked` | internal/providerpool/provider_pool.go:196-204 | and a thread that waits for somebody cannot take its next step |
| `PoolLiveness.NoWaitCycle` | internal/providerpool/provider_pool.go:114-116 | in every reachable state a path of waits never returns to a thread and has at most five threads |
| `PoolLiveness.ReleaseRun` | internal/providerpool/provider_reap.go:24-32 | in every run a release that has begun and not finished has its first caller on the way to the slot, so a repeated call waits for somebody |
| `PoolLiveness.NoDeadlock` | internal/providerpool/provider_limits.go:59-123 | in every reachable state, from every thread in a call a path of waits (among slot, admission and provider locks, shutdown waiting for openers and the reaper, and repeated releases) leads to a thread that can take its next step |
| `PoolOrder.EvictsLeastRecent` | internal/providerpool/provider_limits.go:105-118 | under any interleaving, an admission starts closing a slot only when it is idle, unlocked and unused since it was seen, and was last used no later than any candidate still ahead, as seen and as it is now |
| `PoolOrder.HuntExplained` | internal/providerpool/provider_limits.go:84-123 | over every run, each slot of the map an eviction began with is a candidate, was not idle when looked at, or is still to be looked at; each candidate passed over was locked, empty, leased or used since when its turn came, or failed to close |
| `PoolOrder.EvictionOrder` | internal/providerpool/provider_limits.go:84-123 | both together: the slot evicted is the least recently used idle one whose re-check succeeds, in every run |
| `PoolEviction.Pool.CloseSlot` | internal/providerpool/provider_limits.go:125-136 | a successful close empties the slot and returns the reservation; a failed one keeps both; either way the generation is noted first |
| `PoolEviction.Pool.Candidates` | internal/providerpool/provider_limits.go:91-104 | the snapshot lists exactly the idle slots whose lock is free, each once, with its last use |
| `PoolEviction.Pool.EvictLRU` | internal/providerpool/provider_limits.go:84-123 | the slot evicted is the least recently used idle one that closes; those tried before it only had their generation noted; it fails only if no idle slot closes |
| `PoolEviction.Pool.Reserve` | internal/providerpool/provider_limits.go:59-82 | refused when closed, granted below the limit without evicting, granted at the limit after exactly one eviction, exhausted only when no idle slot closes; the limit and ownership are kept |
| `PoolEviction.Pool.ReapSlot` | internal/providerpool/provider_reap.go:65-87 | one slot's part of the reaping |
| `PoolEviction.Pool.ReapIdle` | internal/providerpool/provider_reap.go:45-63 | exactly the idle, unlocked slots that are due and close are emptied and counted, and their reservations returned |
| `PoolEviction.ReapedIff` | internal/providerpool/provider_reap.go:45-87 | a reaping walk empties exactly the slots nobody holds or uses whose backend was last used at least the idle timeout ago, or at least a minute ago with its root gone, and closes |
| `ReceiptEnvelope.EditReceiptDiffs` | internal/service/receipt_diffs.go:6-27 | the loop computes the maps of the list, or the single older record when there are none |
| `ReceiptEnvelope.TrimIdempotent` | internal/service/receipts.go:239-303 | trimming a trimmed receipt changes nothing, and a trimmed receipt is recognised |
| `ReceiptEnvelope.TrimmedEnvelope` | internal/service/receipts.go:239-247 | a trimmed receipt agrees with the original on the ten named envelope keys, has no warnings and next steps, and no other key but its data |
| `ReceiptEnvelope.TrimmedData` | internal/service/receipts.go:248-254 | its data agrees with the original on the revisions, changed paths and their flags, is marked as trimmed, and holds nothing else but the diffs of the edit and of the plan |
| `ReceiptEnvelope.TrimmedDiffs` | internal/service/receipts.go:255-297 | those are the original's diffs, each reduced to its path, two hashes and patch |
| `ReceiptEnvelope.TrimKeepsProvenance` | internal/service/receipts.go:543-610 | a trimmed receipt records the same revision steps, paths, hashes and patches for every range |
| `ReceiptEnvelope.TrimSomeKeepsRecorded` | internal/service/receipts.go:239-297 | replacing any set of receipts by their trimmed form leaves the recorded tuples of every range unchanged |
| `ReceiptEnvelope.RecordedRevisionDiffs` | internal/service/receipts.go:543-610 | each tuple told by a complete receipt of the workspace in the range exactly once and nothing else, whatever order the table is walked in |
| `ReceiptEnvelope.TellsIff` | internal/service/receipts.go:543-610 | a tuple is read back from a receipt exactly when it reports a canonical change, its two revisions are the tuple's and in the range, and the tuple has the path, the hash before, the hash after and the patch of a diff listed for its tool: under `diffs`, or `change.diff` when that lists none, for an edit; under the committed diffs of the preparation for a plan |
| `ReceiptEnvelope.ReplayInjective` | internal/service/dispatch.go:263-282 | two receipts are replayed as the same envelope exactly when they are the same, beyond the fields every replay overwrites: a replay loses nothing else |
| `ReceiptEnvelope.ReplayTells` | internal/service/dispatch.go:239-283 | whether the key was reused or the receipt evicted, exactly; otherwise the answer names this request, is marked as a replay, warns exactly when details were trimmed, and reports the original's change flag only beside its own |
| `ReceiptEnvelope.ReplayDataRecovers` | internal/service/dispatch.go:267-279 | the original data can be read back from a replay exactly when it did not already use the two keys a replay adds |
| `ReceiptEnvelope.ReplayRecordsNothing` | internal/service/dispatch.go:272-278 | a replayed envelope never claims a canonical change, so it records no revision step |
| `ReceiptEnvelope.TrimmedReplayKeeps` | internal/service/receipts.go:239-290 | the replay of a trimmed receipt still gives the original version, outcome, code, workspace, transaction, evidence and persistence state |
| `ReceiptSweep.ReceiptStore.LookupOrBegin` | internal/service/receipts.go:74-83 | a Begin step of the protocol, taken exactly when it is enabled; a key the table knows is present and starts nothing |
| `ReceiptSweep.ReceiptStore.StoreReceipt` | internal/service/receipts.go:307-317 | the completed receipt enters the table, the table is swept, and the file becomes the workspace's snapshot if the write succeeds |
| `ReceiptSweep.ReceiptStore.Complete` | internal/service/receipts.go:307-317 | storing at the end of a call is a Store step of the protocol, and the table and files stay those of a sound protocol state |
| `ReceiptSweep.ReceiptStore.Checkpoint` | internal/service/receipts.go:95-107 | a checkpoint, written or taken back, is a Checkpoint step of the protocol |
| `ReceiptSweep.ReceiptStore.Abandon` | internal/service/receipts.go:121-126 | an Abandon step of the protocol, which a call may take only while no checkpoint of it stands |
| `ReceiptSweep.ReceiptStore.Finish` | internal/service/receipts.go:131-138 | a Finish step of the protocol, after which the table holds the envelope the caller gets, whether or not it was written |
| `ReceiptSweep.ReceiptStore.ForgetWorkspace` | internal/service/receipts.go:208-216 | a Forget step of the protocol: exactly the finished receipts of the workspace go, and its file if it can be removed |
| `ReceiptSweep.ReceiptStore.Restart` | internal/service/receipts.go:57-69 | a stop and start of the service is a Crash step of the protocol |
| `ReceiptSweep.ReceiptStore.LoadReceipts` | internal/service/receipts.go:407-438 | loading is a run of Adopt steps after which no file is left to read |
| `ReceiptSweep.ReceiptStore.CollectReceipts` | internal/service/receipts.go:381-393 | the snapshot holds exactly the complete receipts of the workspace, tombstones without payload |
| `ReceiptSweep.ReceiptStore.AdoptReceipts` | internal/service/receipts.go:443-471 | an Adopt step of the protocol: exactly the adoptable receipts of the file are installed and counted, then the table is swept |
| `ReceiptRetention.RestoreSaved` | internal/service/receipts.go:407-470 | a receipt saved and restored keeps its arguments, time and state, and its payload unless it was not trimmed and is over the size limit or has no completion time; then it comes back trimmed |
| `ReceiptRetention.AdoptableIff` | internal/service/receipts.go:140-154 | a receipt is not taken over exactly when it is not evicted and its transaction names one of the five plan states that need the old provider |
| `ReceiptSweep.ReceiptStore.Evict` | internal/service/receipts.go:343-348 | one more tombstone, and the running byte total is still the sum over the retained receipts |
| `ReceiptSweep.ReceiptStore.Age` | internal/service/receipts.go:328-342 | payloads outside the window are trimmed, retained receipts are listed once under their workspace, and the total is the sum of their sizes |
| `ReceiptSweep.ReceiptStore.CapCounts` | internal/service/receipts.go:349-357 | every workspace is cut to the count cap, no further than needed, oldest first |
| `ReceiptSweep.ReceiptStore.CapBytes` | internal/service/receipts.go:358-361 | the rest fits the byte budget, the oldest went, and without the last eviction it would not fit |
| `ReceiptSweep.ReceiptStore.CapTombstones` | internal/service/receipts.go:362-375 | every workspace's tombstones are cut to their cap, oldest first |
| `ReceiptSweep.ReceiptStore.ApplyCaps` | internal/service/receipts.go:323-376 | the whole sweep meets the relation `Swept` |
| `ReceiptSweepLaws.SweepBounds` | internal/service/receipts.go:323-376 | afterwards finished receipts are within the count cap per workspace and, by their recorded sizes, the byte budget, tombstones within their cap |
| `ReceiptSizes.SizedRun` | internal/service/receipts.go:307-313 | in every run a receipt's recorded size is its payload's, except where finish replaced the payload after a failed write |
| `ReceiptSizes.FinishSizeIff` | internal/service/receipts.go:131-138 | a finish leaves the recorded size right exactly when the payload was written or its replacement is as long |
| `ReceiptSizes.PayloadWithinBudget` | internal/service/receipts.go:358-361 | after every step with a sweep (store, checkpoint, load) of any run, the recorded sizes fit the byte budget, and the payloads held fit it exactly when those so replaced outgrew their recorded sizes by no more than the budget leaves |
| `ReceiptSizes.BudgetExceeded` | internal/service/dispatch.go:207-213 | they really can exceed it: whenever a result fits the budget and the result with its warning does not, a reachable state has a store whose sweep leaves payloads above the budget |
| `ReceiptSweepLaws.SweepSpares` | internal/service/receipts.go:331-333 | receipts in flight are untouched |
| `ReceiptSweepLaws.SweepDeletes` | internal/service/receipts.go:369-375 | a deleted key was a tombstone by then, and its workspace keeps a full quota of tombstones none of which is older |
| `ReceiptSweepLaws.SweepOldestFirst` | internal/service/receipts.go:350-361 | within a workspace nothing evicted is newer than anything retained |
| `ReceiptSweepLaws.SweepTrims` | internal/service/receipts.go:330-337 | of the receipts a sweep retains it trims exactly those whose call ended longer ago than the payload window |
| `ReceiptSweepLaws.SweepTombstones` | internal/service/receipts.go:343-348 | what a sweep evicts and keeps loses its payload and counts no bytes but still names its arguments and time |
| `ReceiptSweepLaws.SweepByBytes` | internal/service/receipts.go:358-361 | the byte budget evicts oldest first across workspaces and never one receipt too many |
| `ReceiptSweepLaws.SweepTwice` | internal/service/receipts.go:323-376 | sweeping again at the same time changes nothing |
| `ReceiptSweepLaws.SweepKeepsProvenance` | internal/service/receipts.go:334-338 | a receipt the sweep retains still records the same revision steps |
| `ReceiptRuns.StepKeeps` | internal/service/dispatch.go:178-214 | every step (begin, checkpoint, store, finish, abandon, forget, crash, adopt) keeps the protocol invariant |
| `ReceiptRuns.PresentStep` | internal/service/receipts.go:74-126 | a key present stays present exactly unless it is abandoned, its tombstone goes beyond the cap, its workspace is forgotten, or the service stops with no adoptable record of it; meanwhile nothing is executed for it |
| `ReceiptRuns.BeginsAfresh` | internal/service/receipts.go:74-84 | a begun call counts one more execution and inherits no answer, saved answer or replaced payload of an earlier one with its key |
| `ReceiptRuns.StoresResult` | internal/service/receipts.go:307-317 | a stored result, or a written checkpoint, is in the table whole with its time and size, whatever the sweep did to others |
| `ReceiptRuns.DroppedWasTombstone` | internal/service/receipts.go:362-375 | a key lost to the caps belonged to a finished, complete call |
| `ReceiptRuns.ExecutionsBounded` | internal/service/dispatch.go:178-181 | over any run a key is executed at most once more than it is lost |
| `ReceiptRuns.AtMostOnce` | internal/service/dispatch.go:143-215 | from the first start of the service on, a key never lost is executed at most once |
| `ReceiptRuns.OwnWriteDurable` | internal/service/receipts.go:95-107 | a written checkpoint or receipt is durable exactly when a restart would adopt it |
| `ReceiptRuns.WrittenAnswerSurvives` | internal/service/dispatch.go:207-214 | the answer of a call that finishes is still known after a crash exactly when it was written, and a crash leaves the files to load and nothing else |
| `ReceiptRuns.WriteSavesAnswers` | internal/service/receipts.go:380-405 | a durable write saves from a crash the answers of every finished call of its workspace and of no other |
| `ReceiptRuns.DurableStep` | internal/service/receipts.go:380-402 | one step ends durability exactly when it stores a provider-backed result for the key, takes its checkpoint back, drops its tombstone or forgets its workspace; a crash does not |
| `ReceiptRuns.DurableRun` | internal/service/receipts.go:404-471 | a durable key is not executed again through any number of crashes and restarts before one of those steps |
| `ReceiptRuns.CheckpointedNotRepeated` | internal/service/dispatch.go:183-200 | an edit whose checkpoint was durably written is not executed again before one of those steps |
| `ReceiptRuns.ReplayAnswers` | internal/service/dispatch.go:228-283 | any replay of a finished call answers from that call's own envelope, whole or trimmed and so marked, or is refused as evicted; also after restarts for envelopes a write had included |
| `ReceiptDispatch.Execute` | internal/service/dispatch.go:183-201 | executing a call with its optional checkpoint: it times out exactly when no checkpoint stands |
| `ReceiptDispatch.Conclude` | internal/service/dispatch.go:207-214 | storing and finishing leave the receipt from which a retry is answered with the envelope returned |
| `ReceiptDispatch.Call` | internal/service/dispatch.go:143-215 | a whole call drives the protocol by enabled steps only: a known key is answered from its receipt, after waiting for a call in flight, or the wait is cancelled, and nothing is executed; any other key is executed once and then known, with its own envelope, unless it timed out with no checkpoint standing |
| `ReceiptDispatch.WaiterServed` | internal/service/dispatch.go:228-237 | whatever runs between, a waiter finds when the call in flight finishes the envelope that call returned, whole: replayed for the same arguments, refused for others |
| `Decimals.DecimalOfNat` | internal/service/friction_correlation.go:317-359 | every digit string without a leading zero is the decimal text of its value |
| `CorrelationNumber.NormalFormShape` | internal/service/friction_correlation.go:364-387 | every zero becomes "0"; any other number keeps its value and gets a coefficient without a zero at either end |
| `CorrelationNumber.NormalFormIffSameValue` | internal/service/friction_correlation.go:364-387 | two JSON number texts normalise to the same string exactly when they denote the same rational, for unbounded digits and exponents |
| `CorrelationNumber.WellFormedWith` | internal/service/friction_correlation.go:364-387 | the number texts those results are about include any digits after the point and after the exponent letter, with either sign or none |
| `CorrelationNumber.ReducedUnique` | internal/service/friction_correlation.go:376-387 | a nonzero rational has only one reduced form |
| `CorrelationNumber.CanonicalNumber` | internal/service/friction_correlation.go:364-387 | the normal form is itself a JSON number text of the same value, and normalising it again changes nothing |
| `CorrelationEncoding.AppendValue` | internal/service/friction_correlation.go:317-359 | the buffer gains exactly the encoding of the value |
| `CorrelationEncoding.CollectKeys` | internal/service/friction_correlation.go:347-352 | the keys of an object in ascending byte order |
| `CorrelationEncoding.DecodeEncode` | internal/service/friction_correlation.go:317-359 | a decoder recovers the value, in canonical numbers, and leaves the bytes after it |
| `CorrelationEncoding.PrefixFree` | internal/service/friction_correlation.go:317-359 | no encoding is a proper prefix of another |
| `CorrelationEncoding.EncodeIffSame` | internal/service/friction_correlation.go:317-359 | two values encode equally exactly when they are the same JSON value, with key order irrelevant and numbers compared by value |
| `CorrelationEncoding.MessageIsEncoding` | internal/service/friction_correlation.go:407-411 | the authenticated message is the encoding of the five-element array |
| `CorrelationEncoding.MessageInjective` | internal/service/friction_correlation.go:407-411 | two messages are equal exactly when the tools are and the arguments are the same JSON value |
| `CorrelationEncoding.AssembleMessage` | internal/service/friction_correlation.go:407-411 | the buffer assembled is that message |
| `CorrelationUnicode.ScanIffPaired` | internal/service/friction_correlation.go:257-294 | the scanner's recursion accepts exactly the texts made of out-of-string bytes and closed strings whose escapes are non-surrogates or complete pairs |
| `CorrelationUnicode.PairsAreCodePoints` | internal/service/friction_correlation.go:257-294 | the two ranges the scanner pairs are exactly the code units 0xD800 to 0xDFFF, and pairs of them stand for exactly the code points above 0xFFFF, each in one way |
| `CorrelationUnicode.ReadHex4` | internal/service/friction_correlation.go:296-315 | the four-digit fold is the positional value, with no 16-bit overflow, and fails exactly on fewer than four hex digits |
| `CorrelationUnicode.HexTable` | internal/service/friction_correlation.go:296-315 | the digits taken are the twenty-two hexadecimal ones, each with its place in that list as value |
| `CorrelationUnicode.ValidUnicode` | internal/service/friction_correlation.go:257-294 | the loop accepts exactly those texts and never indexes out of range |
| `EditDistance.DistanceIsLeastCost` | internal/mcpapi/schema_validation.go:259-262 | the Levenshtein recurrence is the cost of the cheapest edit script |
| `EditDistance.LengthGap` | internal/mcpapi/schema_validation.go:264-266 | the length difference is a lower bound, so the first early exit is sound |
| `EditDistance.LineExceeds` | internal/mcpapi/schema_validation.go:283-285 | if every cell of a row exceeds the bound, so does the distance: the second early exit is sound |
| `EditDistance.FillRow` | internal/mcpapi/schema_validation.go:273-282 | one row of the table and its minimum, in place |
| `EditDistance.EditDistance` | internal/mcpapi/schema_validation.go:263-289 | the exact distance when it is within the bound, bound + 1 otherwise |
| `EditDistance.NearMiss` | internal/mcpapi/schema_validation.go:245-257 | when a name is a slip for another, in terms of the true distance |
| `RevisionRange.EndpointOfToken` | internal/handlers/revision_diff.go:139-147 | the token of a revision is read back as that revision |
| `RevisionRange.TokenOfEndpoint` | internal/handlers/revision_diff.go:139-147 | only one token names each revision |
| `RevisionRange.DecodeRange` | internal/handlers/revision_diff.go:94-137 | a range is accepted exactly when both ends name revisions and none is newer than the workspace, with the two errors told apart; it then runs forward within the workspace's revisions, is the requested one with zero read as one and reversal undone, its tokens match its numbers, and each correction has one warning |
| `RevisionRange.CurrentResolves` | internal/handlers/revision_diff.go:100-105 | a range with "current" at one end is accepted exactly when the workspace has a revision and the other end is "current" or names a revision no newer than it |
| `RevisionTiles.TilesChain` | internal/handlers/revision_diff.go:269-310 | accepted steps and gaps tile the range in order, with no overlap and no empty tile |
| `RevisionTiles.UncoveredInGap` | internal/handlers/revision_diff.go:293-308 | a revision no receipt covers is in a gap, so no step is claimed without evidence |
| `RevisionTiles.GapIffUncovered` | internal/handlers/revision_diff.go:283-308 | when receipt spans are pairwise equal or disjoint, a revision is in a gap exactly when no receipt covers it |
| `RevisionTiles.GapsExactIffContinued` | internal/handlers/revision_diff.go:283-308 | for any receipts, overlapping or not: gaps and uncovered revisions are the same exactly when, wherever a receipt runs past the end of a step the walk accepted, another one starts there (a condition on the walk; the one a caller can check beforehand is that of `GapIffUncovered`) |
| `RevisionTiles.OverlapSkipped` | internal/handlers/revision_diff.go:286-292 | with overlapping receipts a covered revision can be in a gap: the concrete case |
| `RevisionCoverage.Visit` | internal/handlers/revision_diff.go:283-304 | one receipt is kept exactly when its span is a step of the tiling |
| `RevisionCoverage.CoverRange` | internal/handlers/revision_diff.go:269-310 | the gaps and the receipts kept are those of the tiling defined on the set of spans alone |
| `RevisionGaps.CountIffFullyObserved` | internal/handlers/revision_diff.go:160-165 | the distinct observed steps number the gap's length exactly when every step was observed |
| `RevisionGaps.FillGaps` | internal/handlers/revision_diff.go:156-184 | exactly the fully observed gaps are filled, the others stay in order, and the diffs gain the observations of the filled ones, stably sorted |
| `RevisionGaps.LeftIffUnobserved` | internal/handlers/revision_diff.go:156-184 | a gap is left exactly when some step of it was not observed |
| `RevisionGaps.ObservationsExact` | internal/handlers/revision_diff.go:155-250 | the diffs that filling adds are exactly what the observed steps of the filled gaps say: a document whose hash changed with both hashes, or a path that appeared or went away with none |
| `RevisionGaps.TrimKeepsCoverage` | internal/service/receipts.go:235-290 | whatever receipts were trimmed, the covered steps and gaps of every range are the same |
| `NetEffect.NetChange` | internal/handlers/revision_diff.go:378-402 | the diffs kept and the count of net-changed paths, from first before and last after |
| `NetEffect.EndsAreHashes` | internal/handlers/revision_diff.go:379-388 | for consistent steps those are the hashes at both ends of the range |
| `NetEffect.DroppedIffSameEnds` | internal/handlers/revision_diff.go:389-396 | in a range of consistent steps a path's diffs are dropped exactly when its hash is known and equal at both ends |
| `NetEffect.ChangedIffHashDiffers` | internal/handlers/revision_diff.go:397-402 | a path is counted as changed exactly when it has a diff and its first hash is unknown or differs from the last |
| `NetEffect.AppliedEdit.MergeFile` | internal/handlers/edit_batch.go:106-119 | a path already in the record is updated in place, any other appended |
| `NetEffect.AppliedEdit.Merge` | internal/handlers/edit_batch.go:105-143 | the whole record after one operation: files folded by path, lists appended, maps overwritten by path, counts summed, a described source replaced |
| `NetEffect.AccumulateAssociative` | internal/handlers/edit_batch.go:120-143 | merging is associative, so a list of operations has one accumulated effect however it is grouped |
| `NetEffect.LastWins` | internal/handlers/edit_batch.go:120-143 | of several operations the last one that gives a path a revision or a git state wins, and so does the last one that describes a source |
| `NetEffect.MergeSummarises` | internal/handlers/edit_batch.go:103-119 | a merge keeps every entry's before at the original content and its after at the current one |
| `NetEffect.MergedNetEffect` | internal/handlers/edit_batch.go:12-64 | after any list of operations each located against what the ones before left, the record has one entry per path and applying it to the original files gives the final files |
| `LineWindows.LineSpan` | internal/handlers/lines.go:17-53 | both loops compute the byte range of the lines, with its error cases |
| `LineWindows.SpanOkIff` | internal/handlers/lines.go:17-65 | exactly the lines up to the line count can be addressed, and line one of an empty document |
| `LineWindows.OneLineSpan` | internal/handlers/lines.go:67-70 | one line without its newline starts after a newline, holds none, and ends at one or at the end of the document |
| `LineWindows.CountLines` | internal/handlers/lines.go:56-65 | newlines, and a trailing partial line |
| `LineWindows.BoundedDelivers` | internal/handlers/lines.go:131-156 | a window that starts within the document is delivered, cut at the last line; the range error is unreachable |
| `LineWindows.BoundedAnswers` | internal/handlers/lines.go:131-156 | every request: no bounds gives the whole document, a missing start is line one and a missing end the start; each refusal exactly when it applies; any other window is cut at the last line |
| `LineWindows.WindowsJoin` | internal/handlers/lines.go:131-156 | consecutive windows join without loss or overlap |
| `LineWindows.WholeWindow` | internal/handlers/lines.go:131-156 | all lines together are the document |
| `LineWindows.PagesAreTheDocument` | internal/handlers/lines.go:131-156 | paging through line windows of any size reads the whole document |
| `LineWindows.CapLines` | internal/handlers/lines.go:97-106 | cut exactly when there are more lines than the cap, and then to the window of the first ones; its error branch is unreachable |
| `ByteWindows.StartIffBoundary` | internal/handlers/read_bytes.go:65-71 | in well-formed UTF-8 the bytes that can begin a character are exactly those that do |
| `ByteWindows.ValidIffEncoded` | internal/handlers/read_bytes.go:65-71 | well-formed text, which the guarantees on windows assume, is exactly the UTF-8 encoding of some scalar values (section 3 of RFC 3629) |
| `ByteWindows.Read` | internal/handlers/read_bytes.go:25-80 | when a read is whole, when a window is given and of what, and when each of the five refusals is given: window size and sign, view, changed revision, missing revision, offset, tested in that order |
| `ByteWindows.WindowAdvances` | internal/handlers/read_bytes.go:68-71 | a window of at least four bytes ends on a character boundary and is not empty unless at the end |
| `ByteWindows.ContinuationAccepted` | internal/handlers/read_bytes.go:76-79 | a request continued from a truncated reply is never refused, starts where that reply ended and always advances |
| `ByteWindows.PageSizes` | internal/handlers/read_bytes.go:68-79 | of the replies obtained by following continuations, every one is a window no longer than asked for, and exactly the last is not marked truncated; only that one can be empty |
| `ByteWindows.PagingRoundTrip` | internal/handlers/read_bytes.go:64-79 | following the replies' own continuations from offset zero terminates and what they deliver concatenates to the whole selection |
| `ByteWindows.OneRevision` | internal/handlers/read_bytes.go:54-60 | while the source changes under a reader, all windows of one paging session come from the revision of the first |
| `ByteWindows.SessionDelivers` | internal/handlers/read_bytes.go:54-82 | and they join to one stretch of that revision's content, reaching its end when the last is not truncated |
| `RangeEdits.DescendingIsSimultaneous` | internal/handlers/plan_provider_operations.go:188-201 | for non-overlapping edits with distinct starts, proposed in any order, splicing in descending order replaces all ranges of the original document at once |
| `RangeEdits.SpliceIsReplace` | internal/handlers/plan_provider_operations.go:199-222 | each back-to-front splice is in range and the result is the simultaneous replacement |
| `RangeEdits.RangeOperations` | internal/handlers/plan_provider_operations.go:192-228 | fails exactly when nothing was proposed or a proposed range is not one of its file: file unknown, start negative, end before start or past the file; otherwise a numbered chain of the files' edits, each file's stably sorted from its end backwards, which applied in order replaces all ranges of every file at once if no path is listed twice and no ranges overlap |
| `RangeEdits.DistinctIds` | internal/handlers/plan_provider_operations.go:210 | the generated operation IDs are distinct |
| `RangeEdits.OnlyThatOrder` | internal/handlers/plan_provider_operations.go:217-220 | the dependency chain admits only the order produced |
| `RangeEdits.ThatOrderIff` | internal/handlers/plan_provider_operations.go:214-219 | and it does admit it exactly when the plan does not already depend on one of the new names |
| `RangeEdits.SelfDependent` | internal/handlers/plan_provider_operations.go:210-219 | an operation "a" that depends on "a_1" gets a replacement no order admits: the concrete case |
| `RangeEdits.ProducedReplaces` | internal/handlers/plan_provider_operations.go:192-228 | the operations produced for all files, applied in order, give the simultaneous replacement of every file |
| `Diagnostics.Coalesce` | internal/providerpool/evidence.go:174-201 | the output restricted to a lane is that lane coalesced alone, and consists of exactly the batches of `EntriesExact` |
| `Diagnostics.EntriesExact` | internal/providerpool/evidence.go:156-207 | a batch is still listed exactly when it was not about an older version than the one accepted before it and the next accepted batch of its lane, if any, did not prove its findings gone; entries are in the order received, unchanged but for the completeness withdrawn from all but the last |
| `Diagnostics.AtMostLastComplete` | internal/providerpool/evidence.go:187-194 | at most the last entry of a lane stays complete |
| `Diagnostics.FindingLostOnlyToProof` | internal/providerpool/evidence.go:158-194 | a finding of a batch that was not version-stale on arrival disappears only when a later publication-proven batch of its lane was accepted |
| `Diagnostics.EntriesAreBatches` | internal/providerpool/evidence.go:171-194 | every entry is a received batch of the lane, at most with its completeness taken back |
| `Diagnostics.MergeItems` | internal/providerpool/evidence.go:205-219 | one entry per fingerprint with its latest body, the known ones in place and the new ones in the order first observed |
| `WorkspaceRegistry.StepKeeps` | internal/service/registry.go:191-286 | every step of every thread keeps the registry invariant |
| `WorkspaceRegistry.ItemsAreRecords` | internal/service/registry.go:253-286 | in every reachable state open workspaces are registered and no two records share kind, root and file list |
| `WorkspaceRegistry.PublishedOnce` | internal/service/registry.go:199-219 | a record is opened at most once |
| `WorkspaceRegistry.SameObject` | internal/service/registry.go:188-220 | two resolves of one ID never return different objects |
| `WorkspaceRegistry.ReturnsRecorded` | internal/service/registry.go:188-220 | each answer a call returns is the open object of the workspace it asked for, or the one it just opened or persisted, and is kept in the history those results are about |
| `WorkspaceRegistry.OpenStays` | internal/service/registry.go:222-238 | an open workspace stays the same open workspace until it is forgotten or its adoption is rolled back |
| `WorkspaceRegistry.ForgottenStaysForgotten` | internal/service/registry.go:222-238 | a workspace forgotten or rolled back is never registered or opened again, whatever open was racing |
| `WorkspaceRegistry.Registry.Resolve` | internal/service/registry.go:191-220 | what one resolve returns and which item it adds |
| `WorkspaceRegistry.Registry.Forget` | internal/service/registry.go:225-238 | exactly the named workspaces go |
| `WorkspaceRegistry.Registry.FindEquivalent` | internal/service/registry.go:260-261 | an equivalent definition is found if there is one |
| `WorkspaceRegistry.Registry.Adopt` | internal/service/registry.go:253-286 | created exactly when no equivalent definition is registered and the write succeeds; a failed write leaves the registry as it was |
| `Sorting.Sort` | internal/service/receipts.go:351-358 | a permutation in order, with nothing promised about equal elements |
| `Sorting.StableSort` | internal/handlers/revision_diff.go:183 | a permutation in order in which equal elements keep theirs |

## Left out

Assumptions and abstractions of the modelled parts:

- Provider pool: the capacity mutex and the map mutex guard sections that take no other lock, so each such section is one step; opening a provider after epoch e yields an epoch above e; the clock does not go back between two uses of a slot; a workspace is identified with its slot in the map, so the new slot it gets after a shutdown detached the map is a new name, and a restart's second half goes on with the slot it had, which a closed pool refuses like any other; a sandbox provider is only a pinned open and close, so stager rollback during shutdown appears as such closes; health checks, cancellation and the reaper's clock are choices of the environment.
- PoolEviction.Pool.EvictLRU: the locks and uses of other threads are fixed during the call, so its re-check cannot fail here; under interleaving the choice of the victim is `PoolOrder.EvictionOrder`.
- PoolEviction.Pool.Reserve: the same fixed surroundings; under interleaving `PoolRuns.CapacityBound` and `PoolRuns.EvictsAtMostOnce`.
- PoolEviction.Pool.ReapIdle: the same fixed surroundings; under interleaving `PoolRuns.LeasedNotClosing`.
- PoolLiveness.NoDeadlock: the joined reaper is any one thread inside ReapIdle; what it does besides, expiring idle plans, is not modelled.
- Receipt protocol: the snapshot of a workspace's receipts and the write of its file are one atomic step, although the code takes two locks for them; with interleaved writers an older snapshot could overwrite a newer one.
- Receipt protocol: a failed checkpoint of a key that was durable ends its durability; edit_apply checkpoints once per call, so this concerns no call the code makes.
- Receipt protocol: a waiter on an abandoned receipt replays with no stored result; replay fidelity is stated for finished calls that were not abandoned. A waiter that holds a receipt removed from the table reads it as it was then.
- Receipts: keys are triples of workspace, tool and idempotency key instead of NUL-joined strings; envelope keys the code names are constructors of a datatype; the size of an envelope is an arbitrary function; times are unbounded integers.
- Receipts: a record read back from its file is the envelope written. Decoding JSON turns typed lists and plan records into untyped ones, which `EditDiffs` and `PlanDiffs` read in both forms, but the conversion is not modelled. Unreadable files and the migration of version 1 registries are not modelled.
- Correlation: byte strings have one character per byte; the 16-bit OR of hex digits is an addition modulo 2^16; JSON parsing itself (duplicate keys, depth and size limits) and the keyed hash are not part of the model.
- Revision coverage: receipts are taken to start before they end. Segments carry the same information as the diffs kept and are not listed separately.
- RangeEdits.ProducedReplaces: stated for changes that list no path twice, which is what the kernel sends: it groups the edits of a workspace edit by file (lua/huyang/edit.lua:4482-4521).
- Workspace registry: a new workspace's ID, sixteen random bytes in the code, has never been used before; the file is loaded with pairwise different definitions.
- WorkspaceRegistry.Registry.Adopt: one thread's view, in which a match cannot be forgotten before it is opened; the retry in that case is, in the state machine, another resolve or adoption.
- ByteWindows.OneRevision: two reads of one revision are taken to find the same content, and revision IDs not to be empty.
- ByteWindows.Read: reads that fail or yield no text pass through unchanged and are not modelled, nor is the rendering of the content before it is cut.
- ReceiptSweepLaws.SweepBounds: bounds the recorded sizes; what that means for the payloads is `ReceiptSizes.PayloadWithinBudget`.
- ReceiptDispatch.Call: how a wait for a call in flight ends is a parameter; what the waiter then sees is `ReceiptDispatch.WaiterServed`, for calls that finish. An abandoned call leaves its waiters an empty receipt.

Not modelled, because it is foreign to the logic above or would only add easy members:

- internal/workspace beyond the contracts used here: the commit journal, plan states, handles and ledgers.
- Embedded Neovim, the Lua kernel, language servers and provider calls; process and runtime directories; durable file writing, which is one step that succeeds or fails.
- The sandbox stager pipelines, plan expiry and the notice log.
- Merging whole diagnostic reports (confidence, counts, reasons), rendering, schemas other than the name matcher, argument aliases and the tool catalog.
- The scheduler of calls, friction spooling, search, and the command line tools and scripts.
