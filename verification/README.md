# Strata RMM orchestrator: verified models

Dafny models of the stateful cores of the Strata RMM orchestrator, with proofs about all of their runs. `dafny verify
dfyconfig.toml` checks everything.

| component | files | main results |
|---|---|---|
| canary patch rollout | `CanaryControl`, `DurableJobs`, `RolloutRuns`, `RolloutTheorems`, `AttemptBudget`, `RolloutCounters`, `RolloutDispatch`, `OperatorRetry`, `IdempotencyKeys`, `PatchManager`, `MaintenanceWindow`, `MaintenanceClock`, `DeploymentCreate` | status only moves forward; no broad job before the canary gate passed; counters are the numbers of devices behind them; jobs only inside the window written in the policy, and all of them in an undisturbed pass; exactly which operator retries break the attempt accounts and their bound; keys never repeat |
| alerting | `AlertRows`, `AlertInterleaving`, `AlertLedger`, `AlertAgreement`, `AlertTheorems`, `AlertFiring`, `AlertEngine` | exactly when a key fires and ends; every interleaving with restarts: one place per incident, cooldown spacing, safe compensation; exactly when memory and table disagree about a key; agreement per key when its own evaluations do not overlap |
| modules on disk | `Fingerprint`, `Payload`, `Tree`, `Materialize`, `ReleaseMetadata`, `Activation`, `ModuleDirectory` | the hashed stream decodes uniquely; promoted versions are exact and immutable; write-once records; activations are linearizable; an undisturbed install, publication or activation achieves what it is for |
| module lifecycle | `Registry`, `ModuleStore`, `ModuleLifecycle` | every transaction exactly: when it takes effect and what it leaves; a stored manifest is the last one requested; the audit log reproduces the table, the table the registry; quarantine persists |
| authorization | `Authorization`, `AuthorizationDecisions`, `AuthorizationExact`, `AuthorizationResolver`, `Sorting` | results independent of row order and of rows off the chain; who may manage, access and do what, exactly, from the membership rows |
| vulnerabilities | `Versions`, `VersionNumerals`, `VulnerabilityScan` | version order is a total preorder, and on written numerals the order of the numbers; what a scan opens, exactly |
| NATS identities | `NatsSubjects`, `NatsGrants` | published subjects parse back; identities are disjoint; the permitted subjects token by token |

`Strings` and `Wrappers` hold shared helpers.

## How the models are built

A protocol is a total function `Step(state, event)` and a run is its fold over any sequence of events; an event that is
not enabled changes nothing. Theorems quantify over all event sequences, so they cover every interleaving, every failing
write, every restart and every crash that the events describe. Code that updates fields or loops over rows is a class or
a method whose contract ties the new state to these functions. Outcomes of I/O (a statement that fails, a clock reading,
a fresh identifier, a health check) are inputs of the event or method; a dispatch loop takes one window reading per device
and one more that finds the list empty, so its precondition asks for more readings than devices.

The rollout environment is the repository's own dispatcher: outbox creation, processing, state transitions, lease
timeouts and both branches of the operator's retry endpoint.

## Where the code does less than its text promises

- Operator retries check neither that a target is its device's current one nor, for a single target, that retries are left.
  Device by device and over whole runs, `AccountsHoldIffRetriesCurrent` says exactly which retries break the attempt
  accounts and `BoundHoldsIffRetriesHaveRoom` which break their bound. `CommandsWithinCap` keeps the cap on issued commands
  for a device whose own retries hit its current target; `BulkRetryCanExceedBudget` is a run with three commands under a
  two-attempt policy after a stale retry, and `CommandsInEveryRun` is what holds whatever is retried. The cap on commands has
  no converse: a stale retry need not lead to a command.
- A lease timeout that fails a target also increments `retry_count`, so `dispatch_attempts + retry_count` reads one above
  the cap on the failed target (`LeaseTimeoutReadsOneAboveCap`). `PlainBoundHoldsIffChargesHaveRoom` says exactly when the
  plain bound holds.
- When evaluations of one key overlap, memory and table can disagree for good. `AgreementIffInStep` gives the exact
  condition over all interleavings: a firing save carried out after the resolution, a restore lost to a newer incident, or
  both saves failed. `SwappedSavesLeaveAnActiveRow` is an instance.
- A save that is carried out and reported as failed breaks agreement, and no other outcome does (`SaveAgreesIffReported`);
  the orphaned row then silences the key until a restart (`OrphanSilencesKey`, `MisreportedSaveLeavesAnActiveRow`).
- Acknowledging writes any alert row, also a resolved one. `AcknowledgeAgreesIff` says exactly when memory and table
  then disagree; `RevivingBreaksAgreement` is an instance.
- `device_vulnerabilities` is unique per device and CVE whatever the status, so a closed finding is never reopened.
  `ScanAgreesIffNotClosed` gives the exact condition; `DowngradeIsMissed` is the failing family.
- The activation lock is never reclaimed. It is left for good exactly when a process crashes inside it or the removal of
  the lock file at unlock fails, whose error is ignored (`AbandonedIff`); `FailedUnlockFreezes` is a run without any crash.
- Validation accepts archives that cannot be materialized: `BuildIffCompatible` says exactly which can, and
  `AcceptedButNotMaterializable` is one that cannot.
- A finding without a fixed version is closed by almost any change of the version (`ScanOfUnfixed`).

## Model

| member | source | states |
|---|---|---|
| `CanaryControl.SelectionIsCeiling` | internal/patch/canary_control.go:312-326 | the canary group is the shortest prefix that reaches the percentage, so both clamps are dead |
| `CanaryControl.SelectionPartitionsEligible` | internal/patch/canary_control.go:189-204 | canary devices followed by the remaining devices are the eligible list, for every percentage |
| `CanaryControl.OneCanaryFailureBlocksUpTo90` | internal/patch/canary_control.go:30-39 | with 10% and 90%, one failed canary blocks the broad phase exactly when there are at most 90 devices |
| `DurableJobs.BudgetsAgree` | internal/patch/durable_jobs.go:123-137 | the caps computed by the queue transaction, the dispatch query and the gate query are the same number |
| `DurableJobs.DeviceTrichotomy` | internal/patch/durable_jobs.go:247-297 | a device is exactly one of re-dispatchable, in flight, counted succeeded or counted failed |
| `DurableJobs.GateCounts` | internal/patch/durable_jobs.go:299-346 | completed and succeeded equal total exactly when every row in scope is finished or succeeded |
| `DurableJobs.ReadyIffNothingToDispatch` | internal/patch/canary_control.go:127-163 | a group's gate is ready exactly when the group is non-empty, nothing is listed and nothing is in flight |
| `DurableJobs.ListedDeviceIsQueued` | internal/patch/durable_jobs.go:115-147 | a listed device is never refused as exhausted, incompletely mapped or live, and is in flight after queueing |
| `DurableJobs.UnlistedDeviceIsNotQueued` | internal/patch/durable_jobs.go:115-147 | a device that is not listed is never given another job |
| `RolloutRuns.RunInv` | internal/patch/manager.go:182-336 | the rollout invariant holds after every run with failed writes, restarts, policy edits and operator retries |
| `RolloutTheorems.StatusOnlyMovesForward` | internal/patch/manager.go:182-336 | in every run the status never moves back and a finished deployment row never changes |
| `RolloutTheorems.BroadOnlyAfterCanaryPass` | internal/patch/manager.go:251-288 | in every run a broad device has a job only if the canary gate had been ready with succeeded * 100 >= total * 90 |
| `RolloutTheorems.FailedOnlyOnFailingGate` | internal/patch/manager.go:251-323 | a deployment fails only on a failing canary gate or on a finished deployment with a failure |
| `RolloutTheorems.FailedFromDeployingPhase` | internal/patch/manager.go:290-323 | a deployment that fails after reaching the broad phase had every device finished and at least one failed |
| `RolloutTheorems.CountersAndCompletion` | internal/patch/manager.go:260-323 | installed + failed + pending is the device count fixed at creation; completed means every device succeeded, then and later; what each counter counts is `RowCountsDevices` |
| `RolloutTheorems.DevicesFixed` | internal/patch/deployment_create.go:124-150 | no run changes the devices of a deployment |
| `RolloutTheorems.CanarySetIsStable` | internal/patch/canary_control.go:97-125 | however often preparation is repeated, the canary group is the same prefix |
| `RolloutTheorems.ReachableClassification` | internal/patch/canary_control.go:127-163 | classification and ready-iff-nothing-to-dispatch in every reachable state |
| `RolloutTheorems.ListedStaysListed` | internal/patch/manager.go:325-336 | between listing and queueing only a queue step, a lowered policy or an operator retry can make the queue refuse a device for its budget or mapping |
| `RolloutCounters.GateIsCardinality` | internal/patch/durable_jobs.go:247-346 | total, succeeded and failed of a gate are the cardinalities of the sets of devices in scope, of those whose joined target succeeded, and of those that failed, were cancelled or expired with no attempt left under the clamped policy |
| `RolloutCounters.CanaryReadingDecides` | internal/patch/manager.go:259-288 | in every run, reading the canary gate leads nowhere while a canary is unfinished, else to deploying exactly if 90 percent of the canaries succeeded and to failed otherwise, with installed and failed the numbers of succeeded and failed canaries |
| `RolloutCounters.DeploymentReadingDecides` | internal/patch/manager.go:299-323 | in every run, reading the deployment gate writes the numbers of succeeded and failed devices, completed exactly if all succeeded, failed exactly if all are finished and some failed |
| `RolloutCounters.RowCountsDevices` | internal/patch/manager.go:251-323 | in every run the counters of a row past the canary phase are the numbers of succeeded and failed devices in the state in which a gate of the run was read, over the canaries or over all devices |
| `RolloutCounters.CompletedCounts` | internal/patch/manager.go:299-323 | a completed row has installed equal to the device count, failed and pending zero |
| `RolloutCounters.FailedFromDeployingCounts` | internal/patch/manager.go:299-323 | a row that failed after reaching the broad phase shows at least one failed device |
| `RolloutDispatch.JobsOnlyInsideWindow` | internal/patch/manager.go:221-336 | in every run a job is queued only in a pass that found the window open and with a deadline read in the transaction; the job carries that deadline, and no other device row changes |
| `RolloutDispatch.JobExpiresWithTheWindow` | internal/patch/durable_jobs.go:115-223 | with a window of two different clocks the job is queued between them and expires when the second one strikes, so every instant before its expiry is inside the window |
| `RolloutDispatch.PassDispatches` | internal/patch/manager.go:251-336 | whatever each device's transaction meets, an undisturbed pass gives a fresh job, with the deadline that its own transaction read, to every device of the phase that has none or may be retried, may be queued and read one; it touches no other device and goes on to the gate |
| `RolloutDispatch.FirstPassDispatches` | internal/patch/manager.go:221-249 | the first pass over a new deployment starts the canary phase with a job on exactly those of the first tenth of the devices, rounded up, that may be queued and read a deadline |
| `RolloutDispatch.ClosedPassDecides` | internal/patch/manager.go:251-323 | with the window closed a pass changes no row or target, and the gate is read and decides all the same |
| `RolloutDispatch.PromotionDispatches` | internal/patch/manager.go:278-287 | after a passed gate and a confirmed write the broad devices are dispatched in the same pass exactly if the window is still open |
| `RolloutDispatch.FailedListingDecides` | internal/patch/manager.go:251-336 | a listing that fails queues nothing, and the gate is read and decides all the same |
| `RolloutDispatch.JobRunsToItsEnd` | internal/platform/dispatcher.go:144-305 | a queued job within its retries can be dispatched, run and end in any way, by one command with the next attempt number |
| `RolloutDispatch.UnansweredJobFails` | internal/platform/dispatcher.go:384-397 | a job whose commands are never acknowledged is tried exactly once more than it has retries left, with consecutive attempt numbers, and then fails |
| `RolloutDispatch.EndedTargetStays` | internal/platform/statemachine.go:24-41 | in every run a succeeded or cancelled target never changes, and a failed or expired one only by an operator retry of it |
| `AttemptBudget.AccountsHoldIffRetriesCurrent` | internal/platform/jobs.go:416-426 | throughout any run dispatch_attempts + retry_count of a device is the number of attempts of all its jobs, if and only if every operator retry of one of its targets hit the current one |
| `AttemptBudget.BoundHoldsIffRetriesHaveRoom` | internal/patch/durable_jobs.go:123-137 | throughout any run that sum stays within the largest cap in force, or one above on a failed target, if and only if every operator retry of the device's current target found an attempt left under the cap |
| `AttemptBudget.PlainBoundHoldsIffChargesHaveRoom` | internal/platform/dispatcher.go:384-397 | throughout any run it stays within the cap without exception, if and only if every retry and every lease timeout of the current target found an attempt left |
| `AttemptBudget.CommandsWithinCap` | internal/platform/dispatcher.go:144-182 | if the retries of a device hit its current target, exhausted or not, the commands issued for it never exceed the largest cap in force, at most 11, whatever is retried for other devices |
| `AttemptBudget.CommandsInEveryRun` | internal/platform/dispatcher.go:144-182 | in every run, whatever is retried, the commands of a device are at most cap * (cap + 1) / 2, so 66 |
| `AttemptBudget.AttemptsAccounted` | internal/patch/durable_jobs.go:115-147 | the statements above at once for one device with a job |
| `AttemptBudget.JobsPerDeviceBounded` | internal/patch/durable_jobs.go:187-223 | in every run, whatever operators retry, a device gets at most as many jobs as the largest cap in force |
| `AttemptBudget.RunCycles` | internal/patch/durable_jobs.go:187-223 | in every run the cycle numbers of a device's jobs strictly increase, and each job with its own retries fits under the largest cap in force |
| `AttemptBudget.StaleRetryBreaksAccounts` | internal/platform/jobs.go:416-426 | reviving a replaced target breaks the accounts of its device at once |
| `OperatorRetry.LeaseTimeoutReadsOneAboveCap` | internal/platform/dispatcher.go:384-397 | a run without operators in which the sum reads three under a cap of two |
| `OperatorRetry.BulkRetryCanExceedBudget` | internal/platform/jobs.go:421-426 | a run in which a bulk retry leads to three commands under two allowed attempts |
| `IdempotencyKeys.KeyInjective` | internal/patch/durable_jobs.go:187-191 | equal keys mean the same deployment, device and cycle |
| `IdempotencyKeys.KeysNeverRepeat` | internal/patch/durable_jobs.go:187-223 | in every run no two jobs of a deployment share a key |
| `PatchManager.PatchStore.constructor` | internal/patch/deployment_create.go:124-150 | a created deployment is an initial state of the rollout machine |
| `PatchManager.PatchStore.PrepareCanaryRollout` | internal/patch/canary_control.go:97-125 | rewrites the rows to broad, undispatched, with the canary prefix labelled |
| `PatchManager.PatchStore.GetUndispatchedRolloutDevices` | internal/patch/canary_control.go:127-163 | returns the re-dispatchable devices of the group in order |
| `PatchManager.PatchStore.GetJobGate` | internal/patch/durable_jobs.go:247-346 | the accumulated counters are the gate of the rows |
| `PatchManager.PatchStore.QueuePatchRolloutDevice` | internal/patch/durable_jobs.go:60-238 | the transaction's effect on rows and targets and each of its refusals |
| `PatchManager.Manager.DispatchRolloutGroup` | internal/patch/manager.go:325-336 | the dispatch loop is a run of list and queue steps |
| `PatchManager.Manager.ExecuteDeployment` | internal/patch/manager.go:221-249 | every return path leaves the row and tables that the scripted run leaves: prepare, persist, then dispatch the canaries only after a confirmed write |
| `PatchManager.Manager.AdvanceCanaryDeployment` | internal/patch/manager.go:251-288 | every return path is the scripted run: dispatch in the window, read the gate, persist, dispatch broadly only after a confirmed write in the window |
| `PatchManager.Manager.AdvanceDeployingDeployment` | internal/patch/manager.go:290-323 | every return path is the scripted run: dispatch in the window, read the gate, persist progress or the final status |
| `PatchManager.Manager.ProcessScheduledDeployment` | internal/patch/manager.go:182-212 | one scheduler pass has the effect of the three phases in order |
| `PatchManager.PassIsRun` | internal/patch/manager.go:182-212 | every scheduler pass is itself a run, so the theorems on runs apply to the imperative code |
| `MaintenanceWindow.FinalGuardIsDead` | internal/patch/maintenance_window.go:19-58 | the last outside-window guard is unreachable |
| `MaintenanceWindow.DeadlineIffAllowed` | internal/patch/maintenance_window.go:19-58 | a deadline exists exactly when the window admits the instant; the errors tell malformed from closed |
| `MaintenanceWindow.DeadlineClosesTheWindow` | internal/patch/canary_control.go:331-377 | every instant up to the deadline is allowed, the deadline is not, and it is under 24 hours away, across midnight too |
| `MaintenanceWindow.UnrestrictedDeadline` | internal/patch/maintenance_window.go:19-58 | an unrestricted window gives a 72-hour deadline |
| `MaintenanceClock.PlainWindow` | internal/patch/canary_control.go:328-377 | for all minutes s and e, the text HH:MM-HH:MM of s and e admits minute m exactly if s = e or (m - s) mod 1440 < (e - s) mod 1440, and the deadline then falls on minute e |
| `MaintenanceClock.WindowAllowsExactly` | internal/patch/canary_control.go:328-377 | for every string: a blank one admits everything, two clocks with a dash and white space around them the minutes between the clocks, any other string nothing |
| `MaintenanceClock.WrittenWindowDeadline` | internal/patch/maintenance_window.go:19-58 | the deadline of an open window is the next time its second clock strikes, today or tomorrow |
| `MaintenanceClock.MalformedExactly` | internal/patch/maintenance_window.go:19-58 | the malformed-window error is reported exactly for strings that are neither blank nor two clocks |
| `DeploymentCreate.NormalizeDeploymentIDs` | internal/patch/deployment_create.go:19-34 | the loop computes the normalized list |
| `DeploymentCreate.NormalizedIsDistinctInput` | internal/patch/deployment_create.go:19-34 | exactly the trimmed non-empty inputs, each once, so the device count is the number of distinct devices |
| `DeploymentCreate.NormalizedIdempotent` | internal/patch/deployment_create.go:19-34 | normalizing again changes nothing |
| `AlertInterleaving.RunInv` | internal/alerting/engine.go:212-384 | in every interleaving from any started engine, restarts included, each incident is current in memory, being resolved by one operation, or gone, never two of these, and the table keeps its index |
| `AlertInterleaving.BootInv` | internal/alerting/engine.go:119-133 | a start over any table establishes the invariant |
| `AlertLedger.RunLedger` | internal/alerting/engine.go:212-437 | in every interleaving, what the table holds for each incident of a key: absent, active or resolved according to which of its saves and compensations took place |
| `AlertLedger.AgreementIffInStep` | internal/alerting/engine.go:366-384 | after any overlap, a key without outstanding operations agrees with the table if and only if none of three mishaps happened to an incident of the key |
| `AlertLedger.RowOutlivesIncidentIff` | internal/alerting/engine.go:366-384 | a row is active although memory is quiet exactly if its firing save was carried out after its resolution, or its restore found another incident |
| `AlertLedger.IncidentWithoutRowIff` | internal/alerting/engine.go:366-384 | memory keeps an incident without an active row exactly if its firing save failed while it was being resolved and the resolution failed too |
| `AlertAgreement.MemoryAgreesWithStore` | internal/alerting/engine.go:212-384 | if the evaluations of a key do not overlap each other, memory is firing with an ID exactly when the table has that active row, whenever none of the key's operations is outstanding, whatever other keys do |
| `AlertAgreement.AtMostOneActiveRow` | pkg/postgres/schema.go:3074-3077 | at most one active row per key in every run, and in step it is the incident in memory |
| `AlertAgreement.IndexAcceptsSave` | internal/alerting/store.go:133-141 | in every run in which the key's evaluations do not overlap, the unique index never rejects a save of the key |
| `AlertAgreement.SaveAgreesIffReported` | internal/alerting/engine.go:386-437 | after every such run the next save with its compensation leaves agreement exactly unless it is carried out and reported as failed |
| `AlertAgreement.OrphanSilencesKey` | internal/alerting/store.go:133-141 | until the next restart an orphaned row stays active and the index rejects every new alert of the key |
| `AlertAgreement.RestartAgrees` | internal/alerting/engine.go:119-133 | a restart establishes agreement about every key from any state, by the table's own guarantees |
| `AlertAgreement.RestartRebuildsFiringSet` | internal/alerting/store.go:216-237 | load and restore after a run in step rebuild exactly the firing state of the key, ID and time included |
| `AlertAgreement.AcknowledgeAgreesIff` | internal/alerting/store.go:267-284 | acknowledging keeps agreement exactly unless it revives a resolved rule alert of a quiet key |
| `AlertTheorems.FiringIffAlertId` | internal/alerting/engine.go:230-384 | in every interleaving a state is firing exactly when it has an alert ID |
| `AlertTheorems.OnlyRecoveryOrOwnRollbackEndsAnIncident` | internal/alerting/engine.go:366-374 | an incident ends only by a recovery of its key, the rollback of its own failed save, or a restart that finds no active row of it |
| `AlertTheorems.OnlyFireOrOwnRestoreStartsAnIncident` | internal/alerting/engine.go:376-384 | an incident becomes current only on a quiet key, with a new ID or by the restore of its own failed resolution, or by a restart that finds its active row |
| `AlertTheorems.NoResurrection` | internal/alerting/engine.go:366-384 | an incident whose resolution was saved is not current and not resolved again before the next restart |
| `AlertTheorems.NewIdsAreACooldownApart` | internal/alerting/engine.go:453-500 | any two incidents of a key since the last start, restored ones included, begin at least the later one's cooldown apart |
| `AlertTheorems.SwappedSavesLeaveAnActiveRow` | internal/alerting/engine.go:241-304 | a run of overlapping evaluations that ends with memory quiet and the row active |
| `AlertTheorems.MisreportedSaveLeavesAnActiveRow` | internal/alerting/engine.go:241-274 | a run without overlap in which a misreported save leaves an orphaned row |
| `AlertTheorems.RevivingBreaksAgreement` | internal/alerting/store.go:267-284 | an instance in which acknowledging a resolved alert breaks agreement |
| `AlertFiring.QuietKeyFiresIff` | internal/alerting/engine.go:230-274 | a quiet key fires, with the next ID and exactly one new row, if and only if the rule is violated, the cooldown is over, there is no maintenance, the save is confirmed and the key has no active row |
| `AlertFiring.FiringKeyEndsIff` | internal/alerting/engine.go:275-317 | a firing key ends, with its row resolved, if and only if the rule is no longer violated and the save is confirmed |
| `AlertFiring.HeartbeatEndsIncident` | internal/alerting/engine.go:319-364 | a heartbeat records the later time, ends a firing key exactly if the save is confirmed, and starts nothing |
| `AlertFiring.StaleFiresIff` | internal/alerting/engine.go:453-500 | a quiet entry of the stale check fires if and only if it is of an enabled heartbeat rule, was heard of longer ago than the timeout, has not fired within the cooldown, is not in maintenance, its save is confirmed and its key has no active row |
| `AlertEngine.ViolatesAsNamed` | internal/alerting/engine.go:212-228 | the computed truth value is the one and only that fits the name of the condition, with NaN and unknown conditions |
| `AlertEngine.AlertStore.Save` | internal/alerting/store.go:133-141 | the upsert rewrites only the status of an existing row; carried out unless the tenant's index or the database refuses, and reported independently of that |
| `AlertEngine.AlertStore.UpdateAlertStatusAcknowledged` | internal/alerting/store.go:267-284 | sets the status of any row of the tenant that the index admits to acknowledged and changes nothing else |
| `AlertEngine.Engine.RestoreActiveAlerts` | internal/alerting/engine.go:119-133 | the loop is the restart step of the machine |
| `AlertEngine.Engine.RollbackFiringTransition` | internal/alerting/engine.go:366-374 | undoes only the named incident |
| `AlertEngine.Engine.RestoreFiringTransition` | internal/alerting/engine.go:376-384 | restores only a quiet key |
| `AlertEngine.Engine.EvaluateThreshold` | internal/alerting/engine.go:212-317 | one evaluation is its section, its save and its compensation; for a quiet key past cooldown and maintenance and without an active row, a confirmed evaluation leaves it firing exactly if the value compares with the threshold as the condition is named; a firing key ends exactly if it does not |
| `AlertEngine.Engine.EvaluateHeartbeat` | internal/alerting/engine.go:319-364 | one heartbeat is its section, its save and its compensation; afterwards the key is firing exactly if it was and the save was not confirmed, and the later time is recorded |
| `AlertEngine.Engine.MarkStale` | internal/alerting/engine.go:460-490 | the locked loop marks exactly the overdue entries, each on its own key |
| `AlertEngine.Engine.CheckStaleHeartbeats` | internal/alerting/engine.go:453-500 | the locked loop is the sections of all entries, the loop after it the saves and compensations of the operations they started |
| `Fingerprint.StreamDecodes` | internal/modules/payload.go:133-155 | decoding the hashed stream returns module, version, lower-cased digest and files, for any number of files |
| `Fingerprint.StreamInjective` | internal/modules/payload.go:133-155 | streams are equal exactly when module, version, digest up to case and file lists are |
| `Fingerprint.FingerprintStream` | internal/modules/payload.go:133-155 | the writing loop produces that stream |
| `Payload.CleanPayloadPathIffSafe` | internal/modules/payload.go:173-182 | accepts exactly relative paths without backslash, empty, current or parent elements, and returns them unchanged |
| `Payload.ValidateTarPayload` | internal/modules/payload.go:74-131 | accepts exactly the archives with safe distinct paths, supported entries and bounded totals, and yields their regular files in order |
| `Payload.CheckEntry` | internal/modules/payload.go:88-122 | one iteration's tests decide whether the longer archive is still acceptable |
| `Tree.PayloadFileModeKeepsPermissions` | internal/modules/materialize.go:342-372 | copying the nine bits keeps exactly the permission bits, for every integer mode |
| `Tree.BuildHolds` | internal/modules/materialize.go:305-340 | a built tree has exactly the payload's files, with modes and bytes, and is not empty |
| `Tree.EnsureStageDirectories` | internal/modules/materialize.go:374-408 | the top-down loop creates exactly the missing directories above a file, or stops at an entry that is not one |
| `Tree.CreateMaterializedFile` | internal/modules/materialize.go:305-340 | writes exactly the file's bytes and permission bits below its parents, or refuses a taken path or a parent that is a file |
| `Tree.BuildIffCompatible` | internal/modules/materialize.go:121-147 | a payload can be staged exactly if no path occurs twice and no file's path is a directory above another file |
| `Tree.AcceptedButNotMaterializable` | internal/modules/payload.go:74-131 | an archive that validation accepts and that can never be staged |
| `Tree.ExpectedFiles` | internal/modules/materialize_retry.go:74-86 | the index exists exactly for safe distinct paths and maps each path to its file |
| `Tree.CountDecides` | internal/modules/materialize_retry.go:88-142 | after a complete walk, matching as many files as expected is equivalent to the tree holding the payload |
| `Tree.VerifyExisting` | internal/modules/materialize_retry.go:45-151 | succeeds exactly when the existing tree holds the payload, in any walk order |
| `Materialize.PromotedNeverChanges` | internal/modules/materialize.go:102-160 | an existing version never changes under later installs, crashes and reclaimed locks |
| `Materialize.SuccessMeansExactPayload` | internal/modules/materialize_retry.go:20-36 | a successful retry-safe call leaves the version exactly equal to its payload, on both paths and ever after |
| `Materialize.SuccessesAgree` | internal/modules/materialize_retry.go:20-36 | two successful installations of one version have the same files |
| `Materialize.NothingPartialIsPromoted` | internal/modules/materialize.go:102-170 | a version created by any run is the complete tree of a payload some installer began with |
| `Materialize.LockKeeps` | internal/modules/materialize.go:172-230 | no step of taking or reclaiming the lock breaks the invariant; its exclusiveness is not needed |
| `Materialize.LoneInstall` | internal/modules/materialize.go:48-230 | an undisturbed installer of an acceptable payload without conflicting paths, under no lock or one half an hour old and after whatever others left behind, ends with the complete version in place, no lock and no staging directory of its own |
| `Materialize.LoneRetry` | internal/modules/materialize_retry.go:20-36 | if the version is there, an undisturbed retry is verified exactly if it holds the payload; under a recent lock it fails; nothing changes in either case |
| `ReleaseMetadata.WrittenAtMostOnce` | internal/modules/release_metadata.go:104-112 | once published, the record is the same inode with the same content for ever |
| `ReleaseMetadata.OutcomesMatchTheRecord` | internal/modules/release_metadata.go:38-118 | a success returned the published record, a conflict was with a different valid one |
| `ReleaseMetadata.SuccessesReturnTheSame` | internal/modules/release_metadata.go:38-118 | all successful calls of any interleaving return the same metadata |
| `ReleaseMetadata.LonePublisher` | internal/modules/release_metadata.go:38-118 | an undisturbed publisher publishes its record, agrees with an equal one, reports a conflict with a different one or fails on an unreadable one, and leaves no temporary file |
| `Activation.SelectionAlwaysMaterialized` | internal/modules/activation.go:33-101 | after every run with crashes, active and previous differ and are materialized |
| `Activation.EveryChangeIsOneOperation` | internal/modules/activation_health.go:64-106 | every change of the file is one whole operation on the file it replaces, with a passed check where one is required |
| `Activation.RunIsSequential` | internal/modules/activation.go:175-279 | every concurrent run leaves the file its committed operations produce one after the other |
| `Activation.RollbacksCancel` | internal/modules/activation.go:66-101 | two rollbacks in a row restore the selection |
| `Activation.RollbackUndoesActivate` | internal/modules/activation.go:66-101 | a rollback after an activation selects the version active before |
| `Activation.ExpectedRollbackIsCompareAndSwap` | internal/modules/activation_expected.go:14-54 | changes the file only from the exact snapshot, and an immediate retry changes nothing |
| `Activation.AbandonedLockFreezes` | internal/modules/activation.go:175-193 | an abandoned lock stops all later changes |
| `Activation.AbandonedIff` | internal/modules/activation.go:175-193 | after any run the lock is abandoned if and only if it was there at the start, a process crashed inside it, or an unlock failed to remove the file |
| `Activation.FailedUnlockFreezes` | internal/modules/activation.go:190-192 | a run without a crash that freezes a module |
| `Activation.LoneOperation` | internal/modules/activation.go:33-101 | an operation that finds the lock free achieves what it is for, written out per operation, or is refused for one of the stated reasons, and gives the lock back |
| `ModuleDirectory.Directory.ActivateMaterializedVersion` | internal/modules/activation.go:33-64 | refused without effect, or the decision on the file |
| `ModuleDirectory.Directory.RollbackActiveVersion` | internal/modules/activation.go:69-101 | refused without effect, or the swap |
| `ModuleDirectory.Directory.ActivateExpectedPreviousVersion` | internal/modules/activation_expected.go:14-54 | refused without effect, already applied, or the swap of the expected snapshot |
| `ModuleDirectory.Directory.ActivateMaterializedVersionWithHealth` | internal/modules/activation_health.go:40-107 | an unhealthy candidate leaves the file unchanged |
| `Registry.Registry.InstallModule` | internal/modules/registry.go:46-60 | outcome and new map, other entries untouched |
| `Registry.Registry.EnableModule` | internal/modules/registry.go:102-111 | outcome and new map, refused in quarantine |
| `Registry.Registry.DisableModule` | internal/modules/registry.go:113-122 | outcome and new map, refused in quarantine |
| `Registry.Registry.QuarantineModule` | internal/modules/registry.go:124-133 | outcome and new map, with a default reason |
| `Registry.Registry.ReplaceManifest` | internal/modules/registry.go:150-168 | succeeds exactly for a well-formed manifest of the same ID and another version on an installed or disabled module, which then holds that manifest with its state and installation time |
| `Registry.Registry.Uninstall` | internal/modules/registry.go:170-182 | removes exactly a present module that is not enabled |
| `Registry.Registry.RequirePermission` | internal/modules/registry.go:205-219 | granted exactly to an enabled module that declares the permission |
| `ModuleStore.SuccessIsAuditable` | internal/modules/persistence.go:176-211 | every successful registry operation is a legal transition under its own action |
| `ModuleStore.CommitReproducesRegistry` | internal/platform/module_lifecycle_api.go:299-325 | a successful operation is saved unless the clock ran backwards, and then the table is the registry after it |
| `ModuleStore.AuditReproducesTable` | internal/modules/persistence.go:24-108 | after every run the folded log gives each module's state and reason, and the log is a chain of legal transitions |
| `ModuleStore.QuarantinePersists` | internal/modules/registry.go:102-182 | only an uninstall ends a quarantine, and until then the manifest stays |
| `ModuleStore.ManifestFixedWhileActive` | internal/modules/registry.go:150-182 | the manifest of an enabled or quarantined module never changes, and an enabled one never vanishes |
| `ModuleStore.RestoreReproducesTable` | internal/modules/persistence.go:146-158 | in any row order a table restores exactly when its rows are valid, and then to itself |
| `ModuleLifecycle.OperationExactly` | internal/modules/registry.go:46-168 | each operation succeeds exactly if its guard on the table holds, and leaves the written-out state, manifest, times and reason |
| `ModuleLifecycle.MutationExactly` | internal/platform/module_lifecycle_api.go:299-325 | after every run a mutation takes effect exactly if it is permitted, has an actor and a sane time and commits: one entry and one audit entry, else no trace |
| `ModuleLifecycle.RemovalExactly` | internal/modules/persistence.go:77-108 | an uninstall takes effect exactly for a present module that is not enabled: the row goes and one audit entry comes |
| `ModuleLifecycle.AuditRuleExactly` | internal/modules/persistence.go:176-211 | the audit rule accepts exactly the transitions that operations make, a restore, and replacements under an enabled or quarantined module, which the registry refuses |
| `ModuleLifecycle.ManifestIsLastRequested` | internal/modules/registry.go:46-168 | in every run the stored manifest is the one asked for by the last install, upgrade or rollback of the module that took effect, with no uninstall since |
| `ModuleStore.SqlStore.Save` | internal/modules/persistence.go:24-75 | row and audit entry, or no effect |
| `ModuleStore.SqlStore.Delete` | internal/modules/persistence.go:77-108 | removal and audit entry, or no effect |
| `ModuleStore.SqlStore.RestoreRegistry` | internal/modules/persistence.go:146-158 | the loop restores row by row and stops at the first invalid or duplicate one |
| `Authorization.ResultUnique` | internal/platform/authorization_result.go:138-159 | grants with the same multiset give the same sorted result |
| `Authorization.ResultIndependentOfOtherRows` | internal/platform/authorization_result.go:161-209 | the result depends only on the effective rows, not on their order |
| `AuthorizationDecisions.EffectiveOnlyFromChain` | internal/platform/authorization_result.go:374-421 | a membership is effective only from an ancestor-or-self of the selected scope in the tree |
| `AuthorizationDecisions.ScopeChain` | internal/platform/authorization_result.go:317-372 | the IDs in a selected scope are its real ancestors |
| `AuthorizationDecisions.ResultIndependentOfOffChainRows` | internal/platform/authorization_result.go:161-209 | neither row order nor any row off the chain changes the result |
| `AuthorizationDecisions.ManageIsWitnessed` | internal/platform/authorize.go:10-172 | an allowed manage decision has a managing membership above the resource and a selection that contains it |
| `AuthorizationDecisions.AccessIsWitnessed` | internal/platform/authorize.go:23-256 | an allowed access decision has an active membership above the resource with a role that the selection admits, and a selection that contains the resource |
| `AuthorizationExact.SelectionIffLiveChain` | internal/platform/authorization_result.go:317-372 | claims select a scope exactly if they name an active node with its real ancestors, all active, and then they select that node |
| `AuthorizationExact.EffectiveIffOnChain` | internal/platform/authorization_result.go:374-439 | a membership is effective exactly if it is held at the selection or an ancestor of it with a role that can be held there |
| `AuthorizationExact.InheritedIffElsewhere` | internal/platform/authorization_result.go:195-200 | a grant is marked as inherited exactly if its membership is not held at the selection itself |
| `AuthorizationExact.ResolvesIffHeld` | internal/platform/authorization_result.go:161-209 | authorization is granted exactly to a user who holds a role at a selected active node or above it |
| `AuthorizationExact.PermissionIffHeld` | internal/platform/context_handler.go:274-310 | a permission is granted exactly if a role that carries it, by a table from permissions to roles, is held at the selection or above it |
| `AuthorizationExact.ManageIff` | internal/platform/authorize.go:10-172 | managing is allowed exactly if the resource and its ancestors are active, the selection is the resource or above it, and a role that manages from there is held on the chain: platform owner or admin; from an MSP also MSP owner or admin; from a client or site client admin |
| `AuthorizationExact.AccessIff` | internal/platform/authorize.go:23-256 | access likewise, with the roles that admit it from each selection, platform support only under a support grant |
| `AuthorizationExact.ResultInOrder` | internal/platform/authorization_result.go:138-159 | roles and permissions come in the order of their names, without repetition |
| `AuthorizationExact.GrantsInOrder` | internal/platform/authorization_result.go:138-159 | grants come by role, then by the type and the ID of their source |
| `AuthorizationResolver.NewAuthorizationResult` | internal/platform/authorization_result.go:138-159 | sorted grants, sorted distinct roles and their sorted distinct permissions |
| `AuthorizationResolver.CollectPermissions` | internal/platform/context_handler.go:274-287 | exactly the permissions of the roles, each once |
| `AuthorizationResolver.ResolveAuthorization` | internal/platform/authorization_result.go:161-209 | an error exactly for an unresolved scope or no effective membership, else the result of the effective rows |
| `AuthorizationResolver.ValidateDeviceAncestry` | internal/platform/authorize.go:276-320 | succeeds exactly when every requested device belongs to the MSP, and returns the ownership row of each, once |
| `Versions.SplitVersion` | internal/inventory/vulnerability.go:253-262 | the trimmed non-empty components |
| `Versions.CompareVersions` | internal/inventory/vulnerability.go:198-251 | refines lexicographic order on zero-padded numbers, then tails as strings |
| `Versions.VersionTrichotomy` | internal/inventory/vulnerability.go:198-251 | exactly one of less, equal and greater for any two strings |
| `Versions.VersionLessTransitive` | internal/inventory/vulnerability.go:198-251 | the order is transitive on all strings |
| `Versions.VersionEqualCongruent` | internal/inventory/vulnerability.go:198-251 | equal versions compare alike with every other |
| `Versions.TrailingZeroIsInvisible` | internal/inventory/vulnerability.go:215-233 | a trailing zero component changes no comparison |
| `VersionNumerals.WrittenReadsBack` | internal/inventory/vulnerability.go:198-262 | for all lists of 64-bit numbers and any tail, the decimal text reads back to those numbers and that tail |
| `VersionNumerals.FirstDifferenceDecides` | internal/inventory/vulnerability.go:215-233 | of two written versions the one with the smaller number at the first difference is less, shorter ones padded with zeros |
| `VersionNumerals.PreReleaseComesFirst` | internal/inventory/vulnerability.go:234-251 | a version with a tail is less than the one without, and tails compare as strings |
| `VulnerabilityScan.ScanKeeps` | internal/inventory/vulnerability.go:157-191 | a scan keeps one row per CVE and open rows at affected versions |
| `VulnerabilityScan.ScanOpensExactly` | internal/inventory/vulnerability.go:264-337 | after a scan a CVE is open exactly when the version is below the fix and no closed row was there |
| `VulnerabilityScan.ScanOfUnfixed` | internal/inventory/vulnerability.go:157-191 | a CVE without a fix is opened when it has no row; an open one survives a scan exactly if the version is unchanged or a tail on zeros; a closed one never reopens |
| `VulnerabilityScan.ScanAgreesIffNotClosed` | pkg/postgres/schema.go:357-369 | the scan meets the simple definition exactly when no affected CVE was closed before |
| `VulnerabilityScan.ClosedStaysClosed` | internal/inventory/vulnerability.go:282-344 | in every run of scans and manual resolutions a closed finding stays closed |
| `VulnerabilityScan.DowngradeIsMissed` | pkg/postgres/schema.go:357-369 | a patched package that is downgraded stays unreported |
| `VulnerabilityScan.DeviceVulnerabilities.MatchVulnerabilities` | internal/inventory/vulnerability.go:157-191 | the table after the loop is the table with every CVE matched in turn: a row is added exactly for a matching CVE without one |
| `VulnerabilityScan.DeviceVulnerabilities.RemediateDevice` | internal/inventory/vulnerability.go:282-337 | every open row of an installed package is patched, re-versioned or kept as its version demands; closed rows are untouched |
| `VulnerabilityScan.DeviceVulnerabilities.ScanDevice` | internal/inventory/vulnerability.go:271-279 | after both passes the rows are those of the specified scan, to which the exactness results apply |
| `NatsSubjects.Tokenize` | internal/monitoring/ingestion.go:113-124 | the loop is splitting at the separator |
| `NatsSubjects.ExtractTenantAgent` | internal/monitoring/ingestion.go:89-95 | the identity in tokens 1 and 3, or none |
| `NatsSubjects.PublishedSubjectParsesBack` | internal/platform/agent_nats_policy.go:56-97 | every subject an agent may publish parses back to exactly its tenant and agent |
| `NatsSubjects.IdentitiesAreDisjoint` | internal/platform/agent_nats_policy.go:56-97 | no subject is usable by two identities, in either direction |
| `NatsGrants.GrantedExactly` | internal/platform/agent_nats_policy.go:56-63 | permissions are built exactly for non-empty components without dots, wildcards, angle brackets and white space |
| `NatsGrants.PublishExactly` | internal/platform/agent_nats_policy.go:65-80 | an agent may publish exactly the nine documented subjects under its own prefix, tunnels with any session token |
| `NatsGrants.SubscribeExactly` | internal/platform/agent_nats_policy.go:81-87 | it may subscribe exactly to its commands, their cancellations, result acknowledgements and tunnel input and control |
| `NatsGrants.ParsedExactly` | internal/monitoring/ingestion.go:89-95 | the parser finds an identity exactly in the subjects below the prefix of that identity |

## Left out

- SQL text, drivers, HTTP handlers, NATS transport, SMTP and the command line: only the row and file effects are modelled.
- SHA-256, Ed25519, AES-GCM, JWT, gzip, tar and JSON codecs: the models start from decoded values; the fingerprint model ends at the hashed bytes.
- Several schedulers at once, and other deployments in the same pass: one deployment, one scheduler, as the code does not coordinate more.
- Deleting or disabling a patch policy between two steps of a pass, other than as an unknown policy at its start; device ownership is fixed during a rollout.
- Daylight-saving shifts; windows are read in one fixed-offset zone, and the two clock readings of a pass are independent inputs.
- The result-based gates, `MarkRolloutDeviceDispatched`, the older creation path and `ApplyDevicePatchResult`: not on the durable path or an easy upsert.
- `validatePatchSelectionSnapshot` and the patch rows of a new deployment: the model keeps only whether a deployment has patches.
- `cleanupLoop` and `RemoveRule` of the alert engine drop memory without a store step; the cooldown and agreement results are for retained keys.
- Alert grouping, notifications, CVE alerts and the metric fields of an alert.
- AlertEngine.Engine.EvaluateThreshold: rounding of float64 values is not modelled; NaN is.
- Deleting an alert rule sets `rule_id` of its rows to NULL (pkg/postgres/schema.go:757) and the next restart skips them; the alert model assumes that rule rows keep their rule ID.
- A statement of the old process that reaches the database only after a restart: a restart drops outstanding saves, and one that was carried out before it is an earlier event.
- The recovery of dispatcher leases (internal/platform/dispatcher.go:377-381) would requeue a dispatched target without charging an attempt; nothing in the repository sets `lease_owner` of a target, and the attempt accounts rely on that.
- AlertTheorems.NewIdsAreACooldownApart: per process lifetime, since a restart keeps times only of active alerts; a rule belongs to one tenant, so a key names its tenant.
- `Manifest.Validate` is an input of the registry model; `Registry.ReplaceSnapshot` replaces the whole map from outside and is not a step.
- Fingerprint.StreamDecodes: `strings.ToLower` is modelled on ASCII text, which a hexadecimal digest is.
- Materialize.PromotedNeverChanges: process crashes, not power loss; file ownership and symbolic links outside an existing tree are not modelled.
- ReleaseMetadata.SuccessesReturnTheSame: equality of JSON encodings is equality of the modelled record.
- Materialized directories are never removed in the activation model, as nothing in the repository removes them during these calls.
- `supportGrantAllows` is an input of the access decision; `resolveInitialAuthorization` only chooses among claims.
- Role and permission names are constructors with their alphabetical rank; unknown texts are one constructor that no scope accepts.
- Versions.CompareVersions: strings are sequences of code points, so invalid UTF-8 is not modelled; section 11 of Semantic Versioning 2.0.0 is not what the code implements.
- VulnerabilityScan.ScanOpensExactly: row writes succeed unless the unique constraint rejects them; rows of a package that is no longer installed are outside the statement; a CVE without a fixed version is the subject of ScanOfUnfixed.
- Group expression evaluation, LAN cache, metrics, batching, reports, billing and branding: easy members beside these cores, or claims that do not hold as written.
