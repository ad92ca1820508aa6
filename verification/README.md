# A verified model of the response plane

This project models the automatic response plane of a security operations platform and the
algorithms that feed it, and proves what they promise. It is checked with `dafny verify dfyconfig.toml`.

**The response lifecycle.** An orchestrator accepts signed commands, applies each containment through
an adapter, verifies it, and takes it back at its expiry, on request or after a failure. Every
privileged call is preceded by a durable intent, and every state change is one transaction together
with its audit event. `Lifecycle.dfy` is this protocol as a machine of micro-steps: the durable
tables, the memory of the process, the operation in flight, the peers, and an observer's trace of
privileged calls. Any transaction may raise with or without having committed, any adapter call may
raise anywhere, firewalls time entries out, outsiders change unclaimed addresses, and the process may
stop between any two steps. `Engine.dfy` and `Service.dfy` are the same code as objects that update
their fields; what each public method does is recorded as a run of the machine, so everything proved
of runs holds of the objects.

**The firewalls.** `Ownership.dfy` and `OwnershipClient.dfy` are the ownership ledger of one peer: a
reference count over a set that may already hold other people's entries. `Blocklist.dfy` and
`BlocklistAdapter.dfy` are the saga over at least two such peers, with compensation in reverse order.

**Around them.** `Audit.dfy`, `AuditLedgers.dfy`, `Store.dfy` and `ResponseStore.dfy`: trails, three
ledgers and the durable store. `AuditExport.dfy` and `ExportedRuns.dfy`: ordered delivery of the
journal. `Paging.dfy`: `search_after` paging and the feature pull. `Telemetry.dfy`, `Decision.dfy`,
`HandOff.dfy` and `DecisionRunner.dfy`: what telemetry becomes a signal, what evidence becomes a command,
under which identity, and behind which cursor. `Canonical.dfy` and `Witness.dfy`: a deployment that meets
every assumption of the theorems about decisions, among them digests without collisions.
`Threshold.dfy`, `Partitions.dfy` and `Features.dfy`: threshold selection, dataset separation and
feature extraction. `Sorting.dfy` and `Texts.dfy`: insertion into any strict order, and the order of texts.

Times are integer microseconds; audited times are rounded down to the millisecond (timestamps of
section 5.6 of RFC 3339). A response identity and an audit identity are injective functions of their
material. A response is *unresolved* while it has an unfinished operation, is APPLIED or VERIFIED, or
is FAILED with an adapter reference.

## Where the code and its promises differ

- A revert on a peer where the key never became owner but the address is present reports failure every
  time, because the tag of such a release is not among the accepted ones. In a run that happens exactly
  for addresses an outsider placed and the response never came to own
  (`LifecycleTheorems.RevertConvergesExactly`); `Blocklist.PreexistingWithoutClaimNeverConverges` is the
  failing family. Those are exactly the due blocks that an expiry sweep over peers that always answer
  leaves unresolved (`Engine.ExpiryExactly`).
- Outsiders who act on an address at the wrong time are not seen. A run is safe exactly when every
  intrusion in it is harmless (`Ownership.SafeExactly`): at an address nobody has claimed, outside the
  gap between the check and the claim of a first add, or the removal of an entry the plane added itself.
  `Ownership.OutsiderRaceLiftsForeignBlock`, `Ownership.OutsiderLiftWhileClaimedOrphans` and
  `Ownership.OutsiderJoinIsForgotten` show what the others lead to. The harmless ones are the steps the
  lifecycle machine has (`Ownership.HarmlessIsModelled`).
- A command for a target whose lower-cased text outgrew 255 characters is issued but never valid
  (`HandOff.ValidExactly`; `Witness.IssuedAndNeverValid` for every such host name).
- A scheduler pass is aborted exactly when the queue before it is congested: a command that is still
  authorized finds its target held, or two such commands share a target (`Service.ResponseService.Tick`).
  Any two acceptable commands for one target lead there (`Service.TwoForOneTargetCongest`). A command
  stays stuck no later than its deadlines (`Service.StuckExactly`).
- A later pass over the same anomaly collects its evidence again. Two commands about one anomaly share an
  idempotency key exactly when that evidence is the same (`DecisionRunner.RetrySharesKeyExactly`); one more
  failed login in between gives two keys (`Witness.OneAnomalyTwoKeys`) and two responses that are stuck on
  each other (`Witness.OneAnomalyCongests`).
- Paging loses hits exactly when a page ends between equal sort tuples (`Paging.PagingIsCompleteExactly`;
  `Paging.EqualSortTuplesLoseHits`).
- Anomalies that arrive behind the cursor are skipped: `DecisionRunner.CoveredWhenGrown` says exactly when
  that breaks the promise, `DecisionRunner.LateArrivalIsNeverRead` that they are never read.
- An anomaly of a supported kind whose evidence holds a severity that cannot be read never gets a verdict.
  A pass in which every query is answered, every transaction commits and every delivery is made ends with
  an exception exactly at the first such anomaly it reads (`DecisionRunner.DecisionRunner.Handle`,
  `DecisionRunner.DecisionRunner.RunOnce`), and the next pass starts with it again
  (`DecisionRunner.NextPassStartsThere`).

## Model

| member | source | states |
|---|---|---|
| `LifecycleTheorems.NoOrphanedBlock` | response/orchestrator/engine.py:289-348 | In every state of every run, with crashes, failed or ambiguous transactions, adapter exceptions, firewall timeouts and outsiders: an address on a peer was placed by an outsider or is the target of a block that the durable snapshot still counts as unresolved; an outsider's entry is never lifted |
| `LifecycleTheorems.NoOrphanWithoutOutsiders` | response/adapters/blocklist.py:72-150 | Without outsiders: what was on a peer at the start stays, and everything else on a peer belongs to an unresolved stored block |
| `LifecycleTheorems.CrashRestoresCommitted` | response/orchestrator/engine.py:143-160 | Stopping anywhere and reopening refuses nothing, backfills nothing, and memory becomes exactly the last committed snapshots, which are what memory held up to the millisecond of the expiry |
| `LifecycleTheorems.AppliedIsRecoverable` | response/orchestrator/engine.py:320-324 | Once the adapter was called to apply, the durable record is terminal or unresolved, and always has a recovery reference |
| `LifecycleTheorems.TargetsAreExclusive` | response/orchestrator/engine.py:707-718 | Two different unresolved responses never have the same normalized action and target, restarts included |
| `LifecycleTheorems.AtMostOneApply` | response/orchestrator/engine.py:289-324 | Over a whole run, resubmissions, cache pruning and restarts included, the adapter is called to apply at most once for a key, and never without a durable intent |
| `LifecycleTheorems.CacheIsRecorded` | response/orchestrator/engine.py:169-175 | The pruned dedup cache together with the records decides exactly "this response is already stored": the cache adds nothing |
| `LifecycleTheorems.ResubmissionChangesNothing` | response/orchestrator/engine.py:172-186 | Submitting a key that was ever stored changes no table, no peer, no call and no record |
| `LifecycleTheorems.NoCheckpointRefused` | response/orchestrator/engine.py:676-686 | As long as the storage itself commits, no operation ever attempts a checkpoint that the store refuses, so no process is poisoned by its own transition |
| `LifecycleTheorems.TrailsAreLegal` | response/orchestrator/audit.py:79-99 | Every trail a run leaves in the journal is accepted event by event by the transition check |
| `LifecycleTheorems.RevertCanBegin` | response/orchestrator/engine.py:511-521 | From any idle state the revert of an unresolved response can begin: its intent is committed and the call is in flight |
| `LifecycleTheorems.ProvenRevertEnds` | response/orchestrator/engine.py:532-543 | A revert that returned success with evidence takes the response to the terminal state it was headed for |
| `LifecycleTheorems.VerifiedIsProven` | response/orchestrator/engine.py:350-383 | A VERIFIED event directly follows APPLIED; the one apply call had succeeded, and a later verify call ended with evidence at the recorded instant, no later than the expiry |
| `LifecycleTheorems.ExpiredFollowsVerified` | response/orchestrator/engine.py:435-441 | EXPIRED only directly after VERIFIED |
| `LifecycleTheorems.EndsAreProven` | response/orchestrator/engine.py:511-543 | In a terminal response the last privileged call is a revert that returned success with evidence; without an adapter reference no privileged call was ever made |
| `LifecycleTheorems.BusyRefusals` | response/orchestrator/engine.py:296-316 | Apply of a queued command changes nothing, however the storage behaves, exactly when the command is still authorized and another response holds its target |
| `LifecycleTheorems.StarvationEnds` | response/orchestrator/engine.py:302-314 | After either deadline apply takes the queued command out of the queue, into FAILED, for good and without a privileged call |
| `LifecycleTheorems.ResolvedOwnsNothing` | response/orchestrator/engine.py:511-543 | A stored response with nothing left to undo owns no address on any peer |
| `LifecycleTheorems.OnlyOwner` | response/transports/ownership.py:80-88 | In every run an address has at most one owner on a peer: the unresolved response it is the target of |
| `LifecycleTheorems.RevertConvergesExactly` | response/adapters/blocklist.py:124-150 | A peer that answers lets the revert of an unresolved block succeed exactly when no outsider placed the address or the response came to own it; then nothing but an outsider's entry is left, and other responses never stand in the way |
| `LifecycleTheorems.StoredBlocksAreAimed` | response/orchestrator/engine.py:603-609 | In every run the target of a stored block is an address that can be parsed |
| `RateLimit.OverBudgetExactly` | response/orchestrator/store.py:178-186 | The rate limit refuses exactly when the journal itself has more first events of the policy in the window than allowed |
| `RateLimit.NoWindowOverBudget` | response/orchestrator/engine.py:223-243 | In every reachable state, whatever the clock did, any window of audited milliseconds as wide as the limit holds at most the budget of authorized responses of a policy |
| `LifecycleSteps.StepKeeps` | response/orchestrator/engine.py:162-468 | Every step of the lifecycle keeps the system invariant, and leaves the process alive unless the storage failed |
| `LifecycleSteps.RunKeeps` | response/orchestrator/engine.py:162-468 | The invariant holds after every run from any state that satisfies it |
| `LifecycleSteps.BootHolds` | response/orchestrator/engine.py:135-142 | A new store over at least two peers satisfies the invariant |
| `LifecycleSteps.ReopenYieldsCommitted` | response/orchestrator/store.py:138-146 | The consistency checks of opening accept every state that satisfies the invariant, and the admissions index needs no backfill |
| `LifecycleInv.SaveKeeps` | response/orchestrator/store.py:148-173 | A checkpoint of a record that fits its trail is accepted, and whether it commits, is lost before or is lost after committing, the invariant survives |
| `LifecycleInv.FittingCheckpointAccepted` | response/orchestrator/store.py:148-173 | The checkpoint transaction, with its triggers and unique keys, accepts every record that fits a legal trail |
| `LifecycleRecord.VerifiedResponse` | response/orchestrator/engine.py:365-376 | Promoting to VERIFIED keeps the record, its trail and its calls consistent, and an APPLIED response always has its application on record |
| `LifecycleRecord.RevertedResponse` | response/orchestrator/engine.py:532-543 | Ending a revert keeps the record, its trail and its calls consistent |
| `LifecycleRecord.FailedResponse` | response/orchestrator/engine.py:727-740 | Failing keeps them consistent from every state the engine fails from |
| `LifecycleRecord.ApplyingResponse` | response/orchestrator/engine.py:316-323 | The reference and the apply intent become durable before any call, and no earlier application exists |
| `RateLimit.StepKeepsRate` | response/orchestrator/engine.py:205-249 | Every step keeps the budget of every admission window |
| `RateLimit.AuthorizeKeepsRate` | response/orchestrator/engine.py:224-243 | Authorizing after the budget check keeps every window within budget, although the check uses microseconds and the index milliseconds |
| `Audit.LegalShape` | response/orchestrator/audit.py:29-35 | A legal history is numbered from one, opened by REQUESTED alone, VERIFIED only after APPLIED, EXPIRED only after VERIFIED, nothing after a terminal state |
| `Audit.LegalAppend` | response/orchestrator/audit.py:79-99 | Appending an event keeps a history legal exactly when the one-step check accepts it |
| `Audit.LegalAt` | response/orchestrator/audit.py:79-99 | Every event of a legal history was acceptable after those before it |
| `AuditLedgers.InMemoryAuditLedger.Append` | response/orchestrator/audit.py:134-142 | Accepts exactly the valid transitions, appends to that response alone, keeps all histories legal |
| `AuditLedgers.OneClaimEver` | response/orchestrator/audit.py:121-127 | Over any sequence of attempts, in either ledger, the apply of a response is granted at most once, and is granted exactly when it was not claimed before and some attempt came while the response was REQUESTED |
| `AuditLedgers.FirstCommandStays` | response/orchestrator/audit.py:111-115 | Over any sequence of saves, in either ledger: what was stored stays, a response that had no command keeps the first one saved for it, and a save is accepted exactly when it saves that very command |
| `AuditLedgers.InMemoryAuditLedger.RequestsSince` | response/orchestrator/audit.py:129-132 | Counting REQUESTED events over all histories equals the count in the admissions index |
| `AuditLedgers.SQLiteAuditLedger.Append` | response/orchestrator/sqlite_audit.py:86-97 | Full replay accepts exactly the events whose extended history is legal from its beginning; on a legal table that is exactly the one-step check, and the table stays legal |
| `AuditLedgers.SQLiteAuditLedger.Replay` | response/orchestrator/sqlite_audit.py:92-95 | Replaying a history through a fresh ledger succeeds exactly when the whole of it is legal |
| `AuditLedgers.SQLiteAuditLedger.RequestsSince` | response/orchestrator/sqlite_audit.py:135-143 | The scan counts first events of the policy newer than the instant |
| `AuditLedgers.SQLiteAuditLedger.RecoveryQueue` | response/orchestrator/sqlite_audit.py:105-133 | Exactly the attempted applies that are not over, each with its latest event |
| `AuditLedgers.ThreeLedgersCountAlike` | response/orchestrator/store.py:178-186 | On legal histories the index of the store, the scan over first events and the count over REQUESTED events agree |
| `Store.IndexIsScan` | response/orchestrator/store.py:99-113 | A checkpoint keeps the admissions index equal to the scan of first events; opening changes nothing, and a database without the index gets exactly the scan |
| `Store.IndexCountsLikeScan` | response/orchestrator/store.py:178-186 | The index and the scan count the same submissions |
| `Store.LedgersCountAlike` | response/orchestrator/audit.py:129-132 | The count over REQUESTED events equals the count over first events |
| `ResponseStores.SQLiteResponseStore.constructor` | response/orchestrator/store.py:28-97 | Opening yields the tables on disk, the index backfilled |
| `ResponseStores.SQLiteResponseStore.BackfillAdmissions` | response/orchestrator/store.py:99-106 | Fills an empty index with exactly the scan, leaves another alone |
| `Store.ScanHasFirst` | response/orchestrator/store.py:108-113 | The index shows every response as the earliest of its first events: later ones and other responses do not matter |
| `ResponseStores.SQLiteResponseStore.Checkpoint` | response/orchestrator/store.py:148-173 | One transaction: intent, event, admission and snapshot all commit or none does; it succeeds exactly when every check passes and the commit is confirmed |
| `ResponseStores.SQLiteResponseStore.RequestsSince` | response/orchestrator/store.py:178-186 | On a store whose index is the scan, the index query counts exactly the first events of the policy in the journal that are newer than the instant |
| `ResponseStores.SQLiteResponseStore.UnexportedEvents` | response/orchestrator/store.py:188-197 | The oldest events without a mark, in journal order, up to the limit |
| `ResponseStores.SQLiteResponseStore.MarkExported` | response/orchestrator/store.py:199-201 | A mark that took effect leaves to deliver what was left before, in order, without that event; it may raise with or without having taken effect |
| `Engine.ResponseOrchestrator.Open` | response/orchestrator/engine.py:143-160 | Opening succeeds exactly when the store is free and every snapshot is explained by its signed command and its trail; memory is then the snapshots; after any attempt the store is taken, so a second one fails |
| `Engine.ResponseOrchestrator.Restart` | response/orchestrator/engine.py:143-160 | After a stop at any point of any run, reopening succeeds and yields the state of the machine after its crash step |
| `Engine.ResponseOrchestrator.Checkpoint` | response/orchestrator/engine.py:676-686 | Memory moves on exactly when the transaction succeeded; otherwise the process is poisoned |
| `Engine.ResponseOrchestrator.Transition` | response/orchestrator/engine.py:631-674 | The record moves to the new state together with its audit event |
| `Engine.ResponseOrchestrator.ApplicationOnRecord` | response/orchestrator/engine.py:720-725 | Finds the latest application of the trail |
| `Engine.ResponseOrchestrator.Invoke` | response/orchestrator/engine.py:693-705 | A privileged call is a run of the adapter's saga inside the machine; a success leaves the peers as the operation promises |
| `Engine.ResponseOrchestrator.Submit` | response/orchestrator/engine.py:162-249 | A run of the machine; refused without change exactly for invalid commands; a known key changes nothing; a new one is stored, and authorized exactly when its target is allowed and the window is within budget |
| `Engine.ResponseOrchestrator.DecideSubmission` | response/orchestrator/engine.py:205-249 | Authorizes exactly when the local target check and the rate limit pass, otherwise fails the response |
| `Engine.ResponseOrchestrator.TargetBusy` | response/orchestrator/engine.py:707-718 | True exactly when another unresolved response holds the same normalized target |
| `Engine.ResponseOrchestrator.Apply` | response/orchestrator/engine.py:289-348 | A run of the machine; short of a storage failure it raises only for responses that are not queued or stuck behind a competitor, and then changes nothing; APPLIED means every peer owns the key and reports the address |
| `Engine.ResponseOrchestrator.Verify` | response/orchestrator/engine.py:350-427 | A run of the machine; raises without change exactly when the response is not APPLIED or has an unfinished operation; VERIFIED means before expiry and every peer reports the address |
| `Engine.ResponseOrchestrator.ExpireDue` | response/orchestrator/engine.py:429-442 | A run of the machine that takes back exactly the unresolved responses past their expiry, each with the terminal state its state calls for, and touches no other record; each report tells, whatever the order of the sweep, whether the peers as they were before it let that block be taken back |
| `Engine.ResponseOrchestrator.Rollback` | response/orchestrator/engine.py:444-455 | A run of the machine; refused without change exactly for wrong causes and responses with nothing to undo |
| `Engine.ResponseOrchestrator.RecoverPending` | response/orchestrator/engine.py:457-468 | A run of the machine that takes back exactly the responses with an unfinished operation |
| `Engine.ResponseOrchestrator.RevertRecord` | response/orchestrator/engine.py:511-550 | Intent, call, then the terminal state on proof or FAILED without it; no other record changes, and no other address or key on a peer; the revert of a block on peers that always answer is accepted exactly when every peer lets it be taken back |
| `Engine.SweepMeetsTtl` | response/orchestrator/engine.py:429-442 | After an expiry sweep in which every revert was accepted, no response with its expiry at or before now is unresolved |
| `Engine.ExpiryExactly` | response/orchestrator/engine.py:429-442 | When every peer answers, a due block is resolved after the expiry sweep exactly when on each peer no outsider placed its address or its key had come to own it |
| `Engine.SagaInside` | response/adapters/blocklist.py:72-150 | A whole adapter call, step by step, is a run of the lifecycle machine |
| `Engine.AppliedHasApplication` | response/orchestrator/engine.py:781-786 | An APPLIED response always has an application on record, so verification never raises for the lack of it |
| `Service.ResponseService.Start` | response/service/runner.py:73-79 | Recovery sweep; the service counts as started only when it completed |
| `Service.ResponseService.Accept` | response/service/runner.py:81-94 | Nothing is accepted in observe mode or before recovery |
| `Service.ResponseService.ApplyQueued` | response/service/runner.py:106-108 | Short of a storage failure the loop empties the queue exactly when the records before it are not congested, in whatever order it runs: no waiting command finds its target held, and no two waiting commands share a target |
| `Service.ResponseService.VerifyApplied` | response/service/runner.py:109-112 | Short of a storage failure every applied response is verified or taken back |
| `Service.ResponseService.Tick` | response/service/runner.py:99-127 | A pass is a run of the machine; short of a storage failure it is aborted exactly when the records before it are congested; a completed pass whose expiry sweep was accepted leaves nothing overdue |
| `Service.StuckExactly` | response/orchestrator/engine.py:302-316 | A stuck command stays stuck exactly while its target is held, and no later than its expiry and the expiry of its authorization |
| `Service.TwoForOneTargetCongest` | response/orchestrator/engine.py:302-316 | Any two acceptable commands with different keys for one target: submitting one after the other leads to a queue in which they are stuck on each other |
| `Service.TryingKeepsCongestion` | response/orchestrator/engine.py:707-718 | Trying one response that is not refused neither clears a congestion nor causes one: whoever competed with it for its target is stuck afterwards, and only they |
| `Service.RecoveryKeepsNothingOverdue` | response/service/runner.py:115-118 | The recovery sweep that follows keeps everything overdue resolved |
| `Ownership.CallsRefineRefCount` | response/transports/ownership.py:118-157 | Uninterrupted add and remove are insertion and removal in a reference-counted set: the address is blocked exactly while an outsider or some key wants it; remove undoes add |
| `Ownership.AddCompletes` | response/transports/ownership.py:118-141 | An uninterrupted add leaves the address blocked, joins the owners, and its tag tells exactly whether it owned, found, added or shared the entry |
| `Ownership.RemoveCompletes` | response/transports/ownership.py:143-157 | An uninterrupted remove takes only its key; the address stays exactly when another owner or an outsider wants it or the key never held it |
| `Ownership.StepKeepsCell` | response/transports/ownership.py:80-157 | Every ledger transaction and raw operation, succeeding or raising before or after its effect, keeps the invariant of the address and touches no other owner |
| `Ownership.LedgerSafe` | response/transports/ownership.py:118-157 | In every run of any keys with failures, stops and timeouts, and with any harmless intrusions: outsiders' entries are never lifted, nothing is blocked that nobody wants, and the foreign mark is exact |
| `Ownership.SafeExactly` | response/transports/ownership.py:118-157 | A run with outsiders acting at any time is safe throughout, at every instant and after the next step of the call in flight, exactly when every intrusion in it is harmless: at an unclaimed address outside the gap of a first claim, or the removal of what the plane itself added |
| `Ownership.IntrusionExactly` | response/transports/ownership.py:118-157 | One intrusion leaves the address safe exactly when it is harmless, and then the call in flight keeps its assumptions |
| `Ownership.HarmlessIsModelled` | response/transports/ownership.py:118-157 | A harmless intrusion is an outsider at an unclaimed address, a timeout or nothing: the steps of the lifecycle machine |
| `Ownership.SmoothRunsAreExact` | response/transports/ownership.py:118-157 | Without failures and timeouts the firewall shows exactly the reference count between calls |
| `Ownership.TimeoutKeepsCell` | docker/enforcer/nft_enforcer.py:58-65 | The firewall's own timeout of an entry the plane added keeps the invariant at every point of a call |
| `Ownership.OutsiderKeepsCell` | response/transports/ownership.py:130-137 | A call survives an outsider at an unclaimed address exactly when it is not between the check and the claim of a first add, or nothing changes |
| `Ownership.OutsiderRaceLiftsForeignBlock` | response/transports/ownership.py:130-137 | An intrusion that is not harmless: a block placed in that gap is lifted by the last release |
| `Ownership.OutsiderLiftWhileClaimedOrphans` | response/transports/ownership.py:138-157 | Another: a pre-existing entry lifted while it is claimed leaves a re-added entry behind for nobody |
| `Ownership.OutsiderJoinIsForgotten` | response/transports/ownership.py:138-157 | The third: a block placed at an address the plane already holds is lifted by the last release |
| `Ownership.FinishedRunIsComplete` | response/transports/ownership.py:118-157 | A call that did not raise is the whole uninterrupted call |
| `OwnershipClient.OwnershipLedger.Claim` | response/transports/ownership.py:80-88 | One transaction: the row and the foreign mark, or neither |
| `OwnershipClient.OwnershipLedger.Release` | response/transports/ownership.py:90-96 | One transaction: the last owner takes the foreign mark along |
| `OwnershipClient.OwnedBlocklistClient.Add` | response/transports/ownership.py:118-141 | Whatever raises, what happened to the peer is a run of the client machine that touches one address |
| `OwnershipClient.OwnedBlocklistClient.Remove` | response/transports/ownership.py:143-157 | Likewise for the release |
| `OwnershipClient.OwnedBlocklistClient.ReportsMembership` | response/transports/ownership.py:159-160 | Reads back membership |
| `Blocklist.SagaStepKeeps` | response/adapters/blocklist.py:72-197 | Every step of an adapter call keeps the invariant of every peer and touches only its own key and address; only an apply adds an ownership |
| `Blocklist.SagaRunKeeps` | response/adapters/blocklist.py:72-197 | The same for a call stopped or failed anywhere |
| `Blocklist.EnvironmentKeeps` | response/adapters/blocklist.py:72-197 | A firewall timeout or an outsider between two steps keeps what a call in flight relies on |
| `Blocklist.ApplyOwnsEverywhere` | response/adapters/blocklist.py:72-98 | However an apply is interrupted it adds only its own ownership; a success leaves its key owner on every peer |
| `Blocklist.RevertReleasesEverywhere` | response/adapters/blocklist.py:124-150 | However a revert is interrupted it adds no ownership; a success leaves its key owner nowhere |
| `Blocklist.CompensationRestores` | response/adapters/blocklist.py:185-197 | When nobody owned the address before and the key owns it nowhere after, owners, foreign marks and membership of every peer are exactly what they were |
| `Blocklist.SatisfiedWhenRevertible` | response/adapters/blocklist.py:129-141 | On a peer that answers, the revert loop is satisfied exactly when the key owned the address or the address was absent |
| `Blocklist.PreexistingWithoutClaimNeverConverges` | response/adapters/blocklist.py:133-139 | A pre-existing entry the key never claimed defeats every revert |
| `Blocklist.SoleClaimIsRevertible` | response/adapters/blocklist.py:124-150 | Not pre-existing and nobody else's: revertible, however far earlier reverts got, and nothing is left |
| `BlocklistAdapters.BlocklistAdapter.Apply` | response/adapters/blocklist.py:72-98 | The loops are a run of the saga; success means every peer owns and reports; failure with clean compensation restores all peers when nobody owned the address |
| `BlocklistAdapters.BlocklistAdapter.Verify` | response/adapters/blocklist.py:100-122 | Success means every peer reports the address |
| `BlocklistAdapters.BlocklistAdapter.Revert` | response/adapters/blocklist.py:124-150 | Succeeds exactly when every peer answers and on every peer the key owned the address or it was absent; peers that never raise always answer; every peer that answered is exactly released |
| `BlocklistAdapters.BlocklistAdapter.RollbackPeers` | response/adapters/blocklist.py:185-197 | Releases the touched peers in reverse order and no others; a failed release is only noted |
| `BlocklistAdapters.LiftClient` | response/adapters/blocklist.py:82-84 | The steps of a client call, replayed inside the saga that makes it |
| `Policy.AuthenticAtTheMillisecond` | response/orchestrator/engine.py:150-153 | A command accepted at an instant is still authentic at the audited millisecond, so reopening never turns against it |
| `AuditExport.RunStaysInStep` | response/service/runner.py:32-42 | Over any run with stops and ambiguous timeouts, the journal growing: the marks are a prefix of the journal, the remote stream is that prefix or one event more, documents identical to events |
| `AuditExport.PassesFinish` | response/service/runner.py:32-42 | Enough unblocked passes make marks and remote stream equal to the journal |
| `AuditExport.UnexportedIsRest` | response/orchestrator/store.py:188-197 | What is left to deliver is the rest of the journal, in order |
| `AuditExport.PutNext` | soc/workers/common.py:243-260 | Creating the next document again changes nothing |
| `AuditExport.RemoteIndex.Create` | soc/workers/common.py:243-260 | An existing document is never overwritten, and a timeout may hide a success |
| `AuditExport.AuditExporter.ExportBatch` | response/service/runner.py:32-42 | The loop is a run of the machine; a complete pass delivers exactly the oldest unmarked events up to the limit, a refused document ends it with exactly the reported number marked, and a mark may raise |
| `ExportedRuns.StepFeedsExport` | response/orchestrator/store.py:155-163 | Every step of the lifecycle shows the exporter a journal that is unchanged or longer by one event with a fresh identity |
| `Paging.Scan` | soc/workers/common.py:199-241 | On any index the loop yields exactly the pages, each asked for behind the last hit of the one before; with a limit it raises exactly when they hold more, after yielding the limit |
| `Paging.BeyondHit` | soc/workers/common.py:237-241 | Moving the cursor to a hit skips exactly the hits up to it |
| `Paging.PagingIsCompleteExactly` | soc/workers/common.py:230-241 | On an index in weak order paging yields all hits behind the cursor exactly when no page ends between equal sort tuples |
| `Paging.PagesExactly` | soc/workers/common.py:230-241 | The same for the first hits up to any limit |
| `Paging.EqualSortTuplesLoseHits` | soc/workers/common.py:230-241 | Two hits with one sort tuple and pages of one hit: the second is lost |
| `Paging.UniqueTuplesLoseNothing` | soc/workers/common.py:230-241 | With unique sort tuples the pages are the hits behind the cursor in order, whatever the page size |
| `Paging.PullsCompose` | soc/workers/enrichment.py:153-189 | A pull and then another are one larger pull, in outbox and cursor, also when the index grew at its end in between |
| `Paging.InterruptedPullIsHarmless` | soc/workers/enrichment.py:169-188 | A pull that stopped before storing its cursor is repeated as if it had not been |
| `Paging.PullLosesNothing` | soc/workers/enrichment.py:169-188 | Every valid vector the cursor has passed is in the outbox; a pull as large as the rest leaves none out |
| `Paging.PullFeatures` | soc/workers/enrichment.py:153-189 | On any index the loop takes exactly the first hits that paging yields, with exact counters, and with unique sort tuples that is the pull; a fault leaves the cursor and part of the jobs |
| `Paging.FeatureOutbox.Enqueue` | soc/workers/outbox.py:82-92 | A job is inserted once for its content |
| `Decision.VerdictForgetsOrder` | response/decision.py:166-316 | The verdict, its identities and whether it raises do not depend on the order of the signals |
| `Decision.SameEvidenceSameIdentity` | response/decision.py:205-251 | Whatever the digests: two commands on the same policy, anomaly, target and signals share decision, request and idempotency key; time, label and order do not matter |
| `Decision.SameKeyIffSameEvidence` | response/decision.py:205-251 | When digests do not collide, two commands share an idempotency key exactly when policy, anomaly, target and signals are the same |
| `DecisionRunner.RetrySharesKeyExactly` | response/service/decision_runner.py:251-278 | When digests do not collide, two commands about one anomaly, sent by different passes on different answers, share an idempotency key exactly when the collected evidence is the same |
| `Witness.OneAnomalyTwoKeys` | response/service/decision_runner.py:251-278 | One more failed login between two passes: both command the same containment, under different keys |
| `Witness.OneAnomalyCongests` | response/service/decision_runner.py:251-278 | Those two commands of one anomaly lead to a congested queue in a run of the orchestrator |
| `Witness.AssumptionsCanBeMet` | response/decision.py:205-251 | Digests without collisions exist: canonical texts from which the material can be read back; and such an engine and its orchestrator can trust each other |
| `Decision.CommandsExactly` | response/decision.py:187-240 | An evaluation commands a containment exactly when all evidence is well formed, fresh and about one target, the signals have distinct references that are not the anomaly's, one satisfies the policy, the anomaly is flagged and scores enough, and the target is allowed |
| `Decision.PassesExactly` | response/decision.py:318-349 | No rejection exactly when every policy check passes |
| `Decision.FreshExactly` | response/decision.py:327-334 | The freshness loop passes exactly when every instant is in the window |
| `Decision.NormalSignalsExactly` | response/decision.py:412-462 | Validation succeeds exactly when every signal is well formed and no two share a reference |
| `Decision.EvidenceForgetsOrder` | response/decision.py:412-462 | Validated and sorted signals do not depend on the order of arrival |
| `Decision.ValidateSignals` | response/decision.py:412-462 | The loop over references seen so far computes exactly that |
| `Decision.SortForgetsOrder` | response/decision.py:462 | Sorting by type and reference forgets the order |
| `HandOff.ValidExactly` | response/orchestrator/engine.py:552-629 | A command of the engine is valid for the orchestrator exactly from a minute before its issuance until its authorization expires, provided its normalized target has at most 255 characters |
| `Witness.IssuedAndNeverValid` | response/decision.py:387-411 | For every host name of at most 255 characters whose lower case is longer: the engine commands its isolation, and the orchestrator accepts that command at no instant |
| `Witness.LowerDoubles` | response/decision.py:403-411 | Such names exist: lower case can double the length of a text |
| `HandOff.SameEvidenceOneLifecycle` | response/decision.py:242-251 | The same evidence judged again, later, relabelled or shuffled, never starts a second lifecycle |
| `DecisionRunner.DecisionRunner.Handle` | response/service/decision_runner.py:230-280 | Done means an outcome is recorded, and no other outcome ever changes; a recorded request means the decision is written and the command sent; every command sent is what the engine answers on the signals of this anomaly; when every query is answered, every transaction commits and every delivery is made, it ends with an exception if the anomaly is supported and its evidence holds a severity that cannot be read, and with an outcome otherwise; such evidence never becomes a verdict |
| `DecisionRunner.DecisionRunner.RunOnce` | response/service/decision_runner.py:286-303 | The cursor never moves past an anomaly without an outcome, whatever fails or escapes; a pass that ends moves it past everything read, one to be repeated past everything handled; observe mode sends nothing; a pass that nothing disturbs stops exactly at the first supported anomaly with unreadable evidence and its cursor stays before it, or handles everything it read |
| `DecisionRunner.NextPassStartsThere` | response/service/decision_runner.py:286-303 | The pass after one that stopped reads the anomaly it stopped at first, however the index has grown since |
| `DecisionRunner.CommandsAreCorroborated` | response/service/decision_runner.py:230-280 | Behind every command: an anomaly that scored enough for the policy of its kind of entity, and a signal about that entity, not the anomaly itself, that satisfies the policy |
| `Telemetry.Collect` | response/service/decision_runner.py:140-207 | The queries and loops collect exactly the signals of the answers, or end unanswered, or let an exception escape, the latter only on a severity that cannot be read |
| `Telemetry.SignalsAreBounded` | response/service/decision_runner.py:140-207 | However much telemetry there is, at most three signals of a network or endpoint alert and one of each other kind, all about the entity, counting exactly what was found |
| `Telemetry.TopIsBest` | response/service/decision_runner.py:152-179 | What is cut off is no more severe than anything kept, and nothing is cut off below the limit |
| `Telemetry.CrowdsForgetOrder` | response/service/decision_runner.py:163-193 | Shuffled honeypot interactions and failed logins give the same signals, references and instants included |
| `DecisionRunner.CoveredWhenGrown` | response/service/decision_runner.py:286-303 | New anomalies keep the promise exactly when they sort after the cursor or already have an outcome |
| `DecisionRunner.LateArrivalIsNeverRead` | response/service/decision_runner.py:289-296 | An anomaly that sorts before the cursor is never read again |
| `Threshold.SelectThreshold` | ai/evaluation/threshold.py:22-61 | The result meets the budget and has the best F1 over all real thresholds; it is the largest observed score that reaches it when any observed score meets the budget; with scores in [0,1] selection fails exactly when no threshold in [0,1] meets it |
| `Threshold.ObservedOrSilent` | ai/evaluation/threshold.py:31-36 | Any real threshold fires what the observed score above it fires, or nothing |
| `Threshold.OnlyAboveBenign` | ai/evaluation/threshold.py:58-61 | When no observed score meets the budget, exactly the thresholds above the highest benign score do |
| `Threshold.Candidates` | ai/evaluation/threshold.py:48 | The distinct scores in ascending order |
| `Threshold.HighestBenign` | ai/evaluation/threshold.py:58 | The highest score of a benign vector |
| `Partitions.ValidatePartitions` | ai/training/partitions.py:26-97 | The nested loops with owner maps accept exactly the datasets whose ledger, manifest and rows are bound to each other by their digests, whose partitions are complete and in order, and that leak nothing |
| `Partitions.CheckRows` | ai/training/partitions.py:64-93 | The rows of one partition, with the claims on their identifiers |
| `Partitions.ClaimIds` | ai/training/partitions.py:79-87 | Claiming is refused exactly when another partition holds an identifier |
| `Partitions.NothingLeaks` | ai/training/partitions.py:79-87 | In an accepted dataset no source event and no session is in two partitions |
| `Partitions.TimeIsSeparated` | ai/training/partitions.py:46-53 | Every window of an earlier partition ends no later than any window of a later one starts |
| `Partitions.WindowsAreUnique` | ai/training/partitions.py:71-74 | An entity and window occur at most once in the whole dataset although uniqueness is checked within a partition |
| `Features.SelectForgetsOrder` | ai/features/engine.py:92-119 | Selection depends on the set of events alone, any order and any exact copies; conflicts are refused in every order |
| `Features.SelectExactly` | ai/features/engine.py:92-119 | Selection succeeds exactly when no event is malformed and no identity conflicts, and yields exactly the window's events; a conflict in any part of an event counts, read by extraction or not |
| `Features.SelectEvents` | ai/features/engine.py:92-119 | The loop over two dictionaries computes exactly that |
| `Features.BuildVectors` | ai/features/engine.py:281-331 | Grouping and building succeeds exactly when selection does, every entity is acceptable and every event about one has numeric byte fields; one vector for each entity, in order |
| `Features.SameEventsSameVectors` | ai/features/engine.py:281-331 | Two lists with the same set of events give the same vectors or are both refused |
| `Features.VectorsAreUnique` | ai/features/engine.py:310-331 | A selection has exactly one list of vectors |
| `Features.WindowConserves` | ai/features/engine.py:297-324 | The counts of a window's vectors add up to its attributable events |
| `Features.TilesConserve` | ai/features/engine.py:150-160 | Over tiled five-minute windows every attributable event is counted exactly once |
| `Features.NetworkRowsAreExact` | ai/features/contracts.py:85-117 | Every network row has exactly the features of its schema, counts whole and non-negative, the ratio in [0,1] |
| `Features.EndpointRowsAreExact` | ai/features/contracts.py:85-117 | Every endpoint row too, and rare and suspicious processes are among the processes |

## Left out

- Ledger mode without a store: `restore_recovery` leaves uncertain applies to manual reconciliation and
  promises less than store mode; the two ledgers themselves are modelled.
- SQLite, its journal, file locks and permissions: a table is a map or a sequence, a transaction is one
  step, triggers and unique keys are checks inside it. Closing a store is a transaction that raises.
- Signatures, digests and canonical JSON are parameters; key rotation is not modelled. Address and host
  text rules are parameters.
- TLS, HTTP, the firewall and endpoint wire formats. The endpoint adapter answers anything; evidence
  references are counted, not spelled; failure codes are the engine's own fallbacks, not the adapter's.
- The lifetime a firewall is asked for: a timeout may happen at any moment instead.
- The process stop inside a public method of the classes: the objects always return, and stops between
  any two of their steps are steps of the machine.
- The in-memory dedup cache holds only expiries: its entries name the response their key determines.
- Iteration order over records, queued responses and intents: loops pick any order. Counters, metrics,
  summaries and status views only report.
- Rounding of floating point: scores, ratios and F1 are exact reals; a confidence is a whole number of the
  smallest steps of a floating-point number.
- Shapes of documents: field sets, types, string lengths and digest formats are assumed where one branch
  decides them; file digests are compared as values.
- Draining the outbox to the model and to the index: retries with one branch each.
- The dataset generator, model training, inference and benchmarks; renderers, static checks and scripts.
- Paging.Scan: the index does not change between the pages of one scan; growth between scans is
  `Paging.PullsCompose`.
- Lifecycle.Do: its outsider steps are the harmless intrusions; the others are proved harmful on one
  address (`Ownership.IntrusionExactly`) and are not carried through the saga.
- DecisionRunner.DecisionRunner.Handle: the answers of the evidence queries and the clock are parameters, and
  so is whether anything else may fail (`calm`); the text of a query and the size limit of its answer are
  not modelled.
