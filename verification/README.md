# ClawForge: verified models of its stateful components

Dafny 4.11 models of six components of ClawForge, with proofs of what each promises. `dafny verify dfyconfig.toml` checks everything. Source references are paths and lines of the ClawForge repository.

## What is modelled

**Quarantine generations** (`QuarantineProtocol`, `QuarantineInvariant`, `QuarantineTheorems`, `QuarantineVerification`, `QuarantineConservation`, `QuarantineScripts`, `QuarantineContainerScripts`, `QuarantineFailures`, `QuarantineLateRestore`, `QuarantineGate`, `QuarantineContexts`, `QuarantineDispatch`, `Nic`). The write-ahead protocol of the executor is a transition system. An event is one step of one process between two `await` points, the end of a process at any such point (crash, error return, refused lease), the execution or failure of one remote Proxmox task, or an outside change. Any number of appliers, sweeps, recoveries and reconciliations interleave. The rows, the guard, the unique index on active generations and the receipts follow `storage/src/quarantine_intents.rs` and `migrations/0054_quarantine_durable_ownership.sql`; the Docker and Proxmox adapters follow `firewall-agent/src/docker.rs` and `firewall-agent/src/proxmox.rs`. The main results are safety statements over every run from every initial state.

**Docker sensor** (`DockerSensor`, `SensorPipeline`, `StreamSplitter`). Stream splitter, bounded channel, retry buffer, whole-buffer flush, drop budget, second-granular checkpoint, reconnect and restart, composed with the batch ingress of the API. The sender is a class whose methods are proved against a pure transition function; the theorems quantify over all its runs.

**Rate limiter and CSV** (`RateLimiter`, `RateBounds`, `RetryTimes`, `Csv`). The pruning fixed-window limiter as a class, compared over whole runs with one that never prunes, for clock readings that may lag; the CSV printer, inverted by an independent reader.

**Correlation** (`Events`, `Sessions`, `AlertGrouping`, `Ordering`, `Indicators`, `Correlation`, `Candidates`, `CandidateTable`). In-place alert grouping against a session specification, indicator extraction, pair correlation, outcome scoring, candidate selection, and the candidate table.

**Observation probe and evaluator** (`ObservationProbe`, `ObservationCadence`, `ObservationEvaluation`, `ObservationVerdicts`, `FailureRuns`). The clocked probe loop with its retries, the telemetry part of the evaluator, and the run and gap accounting of both evaluators. What the probe writes is proved to satisfy what the evaluator checks.

`Options`, `Numbers` and `Text` hold what several modules share.

## What the proofs found

- A Proxmox task's UPID is recorded only after the adapter saw the task end OK (`firewall-agent/src/proxmox.rs:419-430`, `executor/src/quarantine_runtime.rs:385-398`). A recorded task is therefore always a successful one (`RecordedTaskSucceeded`), the `Running` and `Failed` answers of the completion proof never occur, and a generation whose isolating task failed or is undecided can never be reconciled (`UnrecordedIsNeverReconciled`), although the comments present reconciliation as the way to resolve it.
- The UPID of a *restoring* task is never recorded. A restore that is abandoned while its task runs can land after its generation was resolved and undo a newer, completed one, because the configuration has the same digest again (`LateRestoreUndoesNewerGeneration`). Resolving is safe in this respect exactly when no restoring task of the generation is undecided (`ResolutionIsDecidedExactlyWhen`).
- A connection without a readable checkpoint starts at the present, and what happened before it is lost silently (`BlindReconnectLoses`). The sensor loses nothing new exactly when a checkpoint is saved and no such connection is pending (`NothingNewIsLostExactlyWhen`). A checkpoint that is saved after the reader has looked for one, but before its connection opens, comes too late for that connection (`LateCheckpointDoesNotHelp`).
- While the ingress stays up, a buffer of fewer than fifty events stays below fifty and nothing is dropped (`UpStaysBelowBatch`).
- An outage is survived with at most 99 buffered events, or 100 if none is waiting. One more and the sender sends a request that is too large for ever (`RecoveryThreshold`, `OverThresholdNeverRecovers`), far below the documented retry budget of 5,000. Only a restart helps: once a checkpoint is saved it loses nothing and catches up (`RestartCatchesUp`).
- The rate limiter reads the clock before it takes the lock (`api/src/main.rs:192-193`), so concurrent checks can enter the map in another order than that of their readings. With readings that lag by at most `lag` behind earlier ones, and one window for each key, all of this holds exactly for a key of window `W > 0`:
  - pruning is invisible to it when every other key's window is at least `W + lag` (`PruningIsInvisibleExactlyWhen`);
  - any interval of length `W` holds at most `2L - 1` allowed checks when moreover the lag is at most one tick (`RateBoundExactlyWhen`);
  - its retry times are exact when there is no lag and no key has a shorter window (`RetryTimesExactlyWhen`), and so are the remaining counts of its allowed checks (`RemainingExactlyWhen`).
- With a lag of two ticks, checks of a single key reach `3L - 2` in one window: for `L = 3` and `W = 10` the readings 1, 10, 10, 11, 11, 11, 21, 19, 19 (`LagReachesThreeBuckets`). Whatever the lag, `2L - 1` holds for intervals shorter than the window by the lag (less one tick) if pruning is invisible, and by twice the lag (less one tick), but at least by the lag, if no other window is shorter (`RateBoundWhenInvisible`, `RateBound`). The bound is reached without lag (`RateBoundIsReached`).
- The deployed policies mix a window of an hour (bootstrap) with windows of a minute (`api/src/main.rs:281-306`). For bootstrap the three promises are false even without lag, because with more than 10,000 keys in the map a check of any other policy evicts its live bucket (`CloseWindowResets`). For the others they hold without lag, but for any lag the equal windows of other keys break them.
- The CSV printer does not quote its column names, and no columns print an empty record. The round trip holds exactly when there is a column and every name is free of comma, quote and line feed (`Csv.RoundTrip`). A carriage return is not quoted; the reader treats it as an ordinary character.
- A lone event's candidate is keyed by its *trimmed* correlation id, a joint candidate by the id as it is. A follow-up extends the earlier candidate exactly when the id has no surrounding white space (`FollowUpExtendsExactlyWhen`).
- The score's cast to `u8` loses points from 65 event types on (`TruncationExactlyWhen`); there are only six correlatable types, so nothing is lost in use (`ConfidenceAsIntended`).
- The alert grouping ignores the `infrastructure` field of its rule. Its key joins source and type with a colon, so that types with a colon could make two sources one (`KeysCanMeet`); without, one key is one source and type (`KeysIdentify`). On unsorted input `last_seen` is the time of the member that came last, not the latest time.
- `validate_plan` accepts negative back-off times. `worst_cycle` then need not bound a cycle (`WorstCycleIsWorstExactlyWhen`), an accepted plan can let five intervals pass between two cycle starts (`NegativeBackoffHidesGap`), and `sleep` fails when a negative time is reached. The exact conditions for the cadence and for staying below three intervals are `CadenceExactlyWhen` and `NoHiddenGapExactlyWhen` over all windows, and `GapsWithinExactlyWhen` in the plan's own window; without negative back-off times the cadence is kept (`NonNegativeBackoffKeepsPace`). A negative failure limit is accepted too; such a probe stops after its first cycle.
- While the gate is closed, nothing but automatic recoveries of earlier generations can happen, whatever requests arrive (`ClosedGate`); from the start nothing happens at all (`ClosedGateFromStart`).

## Assumptions

- A VM's digest covers its whole configuration; a submitted `qmconfig` task writes only if the digest still matches when it runs. A network of a container may be changed by others only while no guard on that container is held, and a VM not between the confirming readback and the end of that transaction. All other outside changes are allowed at any time.
- Docker commands are synchronous. A connect command may report failure and yet have connected. One string stands for the fields of an attachment that are compared as a whole.
- The daemon's event times do not decrease, `since` is inclusive, and the daemon replays its whole history from there, however old the checkpoint is. The reader loads the checkpoint and opens its connection in two separate steps. Log entries carry whether the sensor turns their line into an envelope. Which items of an acknowledged batch the ingress rejects, for clock skew, age or any other reason, is arbitrary; the sensor gives these up, and counts them if it can read the reply.
- A clock reading of the limiter lags behind earlier ones by at most a bound, which is a parameter of every theorem about it. The probe's clock, attempt outcomes and durations, its own delays, snapshots and stop file are arbitrary within the plan's time-outs. Times are integers or reals instead of floating-point numbers.
- The store answers queries with arbitrary events; nothing is assumed of their number or order.

## Model

| member | source | states |
|---|---|---|
| `QuarantineTheorems.WriteAheadOwnership` | executor/src/quarantine_runtime.rs:309-430 | In every state of every run, under every interleaving, crash and late task, an isolation that is in force, or not undone with the original settings, belongs to the one active generation of its target, whose committed plan equals what the isolation took away |
| `QuarantineTheorems.UndecidedTaskOwned` | executor/src/quarantine_runtime.rs:66-72 | A submitted isolating task not known to have succeeded keeps its generation prepared or recovery_required, sole owner of the target, with no recorded task and the plan the task is fenced on |
| `QuarantineTheorems.RecordedTaskSucceeded` | executor/src/quarantine_runtime.rs:385-398 | A recorded task has always ended OK and landed |
| `QuarantineTheorems.Lifecycle` | storage/src/quarantine_intents.rs:481-550 | Over every run a row keeps target and plan, its status only advances, it has at most one apply and one rollback receipt, completed means one apply receipt, rolled_back is equivalent to one rollback receipt |
| `QuarantineTheorems.LifecycleStep` | executor/src/quarantine_runtime.rs:66-105 | One event changes a row only along the allowed transitions and writes a receipt exactly on completing or rolling back; a failed commit changes nothing |
| `QuarantineTheorems.ExactRestoration` | executor/src/quarantine_runtime.rs:87-105 | When a generation becomes rolled back, its target is as its snapshot says (the saved NIC; every saved network with its settings and at least its aliases), no isolation of it is in force, no isolating task at the target can still land, and a VM generation has a recorded task that ended OK |
| `QuarantineTheorems.UnrecordedIsNeverReconciled` | executor/src/quarantine_runtime.rs:259-285 | A VM generation in recovery_required without a recorded task stays exactly as it is in every run |
| `QuarantineTheorems.NoReplay` | executor/src/quarantine_runtime.rs:108-134 | Once the process that prepared a generation is gone, no event of any run submits an isolating task or cuts a network for it again |
| `QuarantineTheorems.WritesAreAuthorized` | executor/src/quarantine_runtime.rs:56-105 | Every remote write belongs to a generation of that target: an isolation to its prepared or unrecorded owner, a reconnect to its owner with an apply receipt (of a recovery) or in recovery_required (of a reconciliation), a restore task to one whose isolation landed |
| `QuarantineTheorems.RestoreSubmissionIsAuthorized` | executor/src/quarantine_runtime.rs:202-252 | A restoring task is only submitted for the active generation named by id: completed with an apply receipt for a recovery, recovery_required for a reconciliation, with a landed recorded task |
| `QuarantineVerification.ReceiptMeansReadBack` | executor/src/quarantine_runtime.rs:389-430 | In every run, a generation has an apply receipt only if at some moment of the run, after the adapter call had returned, its own process read the target back and it was cut off: a container without any network, a VM with an option of net0 that trims to link_down=1 |
| `QuarantineVerification.RecoveryIsOfVerified` | executor/src/quarantine_runtime.rs:56-105 | A recovery reaches the adapter restore call only for a generation with such a readback |
| `QuarantineVerification.ReadBackDecides` | executor/src/quarantine_runtime.rs:399-411 | When the adapter call has returned, the generation can be verified exactly if the target is cut off; giving up writes no receipt, keeps the recorded UPID and leads to recovery_required |
| `QuarantineVerification.UnverifiedNeverCompletes` | executor/src/quarantine_runtime.rs:399-411 | In a run without such a readback a prepared generation never gets a receipt and is never completed |
| `QuarantineConservation.VmConservation` | firewall-agent/src/proxmox.rs:570-671 | A VM nobody else changes has in every state either its original configuration or exactly its isolated form, and then one active generation owns it with the original NIC as its plan |
| `QuarantineConservation.ContainerConservation` | firewall-agent/src/docker.rs:361-467 | A container nobody else changes is in every state on no foreign network, and either every network is attached as it was, settings included, or the one active owner's committed plan holds every one of them as it was |
| `QuarantineLateRestore.LateRestoreUndoesNewerGeneration` | firewall-agent/src/proxmox.rs:633-671 | From every start with a quarantinable VM some run lets a late restoring task of a resolved generation undo a newer completed one |
| `QuarantineLateRestore.ResolutionIsDecidedExactlyWhen` | executor/src/quarantine_runtime.rs:202-252 | Every way of resolving a generation that waits for its own restores leaves no undecided restore exactly when none was undecided before |
| `QuarantineLateRestore.PatientRunsHaveNoStaleRestore` | executor/src/quarantine_runtime.rs:87-105 | In runs that wait for every restore they submit, each undecided restore belongs to the owner of its target |
| `QuarantineScripts.QuarantineScript` | executor/src/quarantine_runtime.rs:309-430 | An unowned, not isolated VM can be quarantined: one undisturbed application reaches exactly the completed, receipted, isolated state |
| `QuarantineScripts.RestoreScript` | firewall-agent/src/proxmox.rs:633-671 | One undisturbed recovery of an isolated VM reaches exactly the original NIC and the resolved row |
| `QuarantineScripts.ConfirmScript` | firewall-agent/src/proxmox.rs:155-165 | With the original NIC already in place a restore writes nothing remote and resolves the row |
| `QuarantineContainerScripts.QuarantineContainerScript` | firewall-agent/src/docker.rs:361-423 | An unowned container can be quarantined: one undisturbed application takes every network away and reaches exactly the completed, receipted row that holds them all |
| `QuarantineContainerScripts.RestoreContainerScript` | firewall-agent/src/docker.rs:426-467 | One undisturbed recovery or reconciliation of an isolated container attaches exactly the networks of the plan, with their settings and at least their aliases, and resolves the row |
| `QuarantineFailures.AbandonedScript` | executor/src/quarantine_runtime.rs:66-74 | The sweep hands a prepared generation that nobody works on over to manual recovery, and changes nothing else |
| `QuarantineFailures.ReviewIsLeftAlone` | executor/src/quarantine_runtime.rs:66-74 | A recovery of a generation in recovery_required can only stop |
| `QuarantineFailures.FailedTaskScript` | firewall-agent/src/proxmox.rs:419-430 | A run in which the isolating task fails: the VM is unchanged, the generation in recovery_required without a UPID |
| `QuarantineFailures.ReopenedScript` | executor/src/quarantine_runtime.rs:389-411 | A run in which the isolation lands and the VM is opened again before the readback: no receipt, recovery_required with the UPID |
| `QuarantineFailures.CompensationScript` | firewall-agent/src/docker.rs:390-403 | When a network cannot be cut, whichever are cut already, the compensation attaches them as they were and the generation is in recovery_required |
| `QuarantineFailures.FailedRecoveryScript` | executor/src/quarantine_runtime.rs:98-102 | A recovery can fail at every point of the restore, which leaves its generation in recovery_required and the target as it is |
| `QuarantineFailures.FailedReconciliationChangesNoRow` | executor/src/quarantine_runtime.rs:236-250 | A reconciliation in its restore changes no row and never marks its generation |
| `QuarantineFailures.FailureIsNoted` | firewall-agent/src/docker.rs:438-453 | A failed connect, or an attached network that has other settings or lacks a saved alias, makes the restore fail |
| `QuarantineFailures.FailingNeverResolves` | firewall-agent/src/docker.rs:454-465 | Whatever happens, a restore that failed stays failed or ends; its generation is not resolved by it |
| `QuarantineFailures.ConfirmedOnlyAfter` | firewall-agent/src/proxmox.rs:633-671 | A restore is confirmed only while the target is as saved, and only after the NIC was found so at once, the task had ended OK, or all networks had been dealt with without a failure |
| `QuarantineFailures.AwaitedOnlyAfter` | firewall-agent/src/proxmox.rs:633-671 | The adapter goes on from a restoring task only if it ended OK, and otherwise gives up |
| `QuarantineInvariant.NextInv` | migrations/0054_quarantine_durable_ownership.sql:1-81 | Every step of every process, task and outside change keeps the invariant of rows, guards, tasks and effects, in particular at most one active generation for a target |
| `QuarantineInvariant.RunInv` | executor/src/quarantine_runtime.rs:56-430 | So does every run |
| `QuarantineDispatch.ClosedGate` | executor/src/quarantine_runtime.rs:138-194 | Whatever requests arrive, with any action names, dry or live: over every run no apply or reconcile event happens, no generation is prepared, no isolating task submitted, no generation in recovery_required resolved; exactly the live requests of quarantine and reconciliation are refused, and all others go to the ordinary dispatcher |
| `QuarantineDispatch.ClosedGateFromStart` | executor/src/quarantine_gate.rs:167-174 | From a start without generations every event of every run is an outside change |
| `QuarantineContexts.LiveExactlyWhen` | executor/src/quarantine_gate.rs:63-110 | A live request is accepted exactly when it is accepted as a dry run and names a data owner, a restore reference and a management plan, each a text within its byte limit, not blank, without control characters |
| `QuarantineContexts.DockerContextExactlyWhen` | executor/src/quarantine_gate.rs:88-129 | A container request is accepted, with this id and TTL, exactly for 64 lower-case hexadecimal digits and a TTL that is absent (an hour) or whole seconds between a minute and a day |
| `QuarantineContexts.ProxmoxContextExactlyWhen` | executor/src/quarantine_gate.rs:88-138 | A VM request is accepted exactly for a node that is one DNS label and a positive vmid of 32 bits |
| `QuarantineContexts.TailscaleContextExactlyWhen` | executor/src/quarantine_gate.rs:88-155 | A device request is accepted exactly for 1 to 256 letters, digits, hyphens and underscores |
| `QuarantineContexts.OtherActionsRefused` | executor/src/quarantine_gate.rs:17-27 | No action but the three is accepted |
| `QuarantineGate.FingerprintIdentifies` | executor/src/quarantine_gate.rs:90-160 | Two validated identities with the same adapter and fingerprint are the same target |
| `QuarantineGate.LiveContextRestores` | executor/src/quarantine_gate.rs:74-165 | What passes live validation passes the restore path's with the same identity and TTL; the identity is canonical, the TTL within its bounds or the default, the result never ready for live |
| `QuarantineGate.PreparedIntentRestores` | executor/src/quarantine_runtime.rs:26-51 | Every prepared row can be restored: the restore target is the approved one, unchanged except for the one field holding the preflight snapshot |
| `QuarantineGate.RestoreTouchesRecordedTarget` | executor/src/quarantine_runtime.rs:26-51 | For the target that the recorded adapter and fingerprint name: a row is restorable exactly if its approved target validates to that very target and the plan holds its snapshot, and the restore then names it, with that snapshot |
| `Nic.IsolateIsIsolated` | firewall-agent/src/proxmox.rs:46-57 | The isolated form of any NIC string is recognised as isolated |
| `Nic.IsolateIdempotent` | firewall-agent/src/proxmox.rs:52-57 | Isolating twice is isolating once |
| `Nic.IsolateForgetsLinkState` | firewall-agent/src/proxmox.rs:37-57 | One more link state of any value at the end of any NIC string does not change its isolated form, and makes it isolated exactly if it is the isolating one |
| `Nic.IsolateKeepsOptions` | firewall-agent/src/proxmox.rs:46-57 | The options of the isolated NIC are link_down=1 and exactly the other trimmed, non-blank options of the NIC, for any NIC string |
| `Nic.IsolateAppends` | firewall-agent/src/proxmox.rs:52-57 | A NIC without blanks and link state is kept as it is, in order, with link_down=1 at its end |
| `DockerSensor.BatchSender.FlushBuffer` | docker-sensor/src/main.rs:293-369 | One flush: the whole buffer acknowledged, each event stored or rejected and the readable rejections counted, or the oldest beyond 5,000 dropped and counted, or nothing |
| `DockerSensor.BatchSender.ReceiveEvent` | docker-sensor/src/main.rs:416-425 | A received event is pushed and flushed at the batch size |
| `DockerSensor.BatchSender.Task` | docker-sensor/src/main.rs:399-444 | The sender loop over any number of turns with its final flush |
| `DockerSensor.SenderConserves` | docker-sensor/src/main.rs:293-443 | Over every run, settled events followed by the buffer are exactly the received events in order, and the buffer holds at most 5,000 after a turn |
| `DockerSensor.OverThresholdNeverRecovers` | docker-sensor/src/main.rs:304-368 | Above 100 buffered events no run ever delivers again: the buffer stays above 100, the checkpoint stays, and only drops follow |
| `DockerSensor.RecoveryThreshold` | api/src/main.rs:8170-8181 | With the ingress up again every first flush empties the buffer exactly when at most 99 events are buffered, or 100 and none is waiting |
| `DockerSensor.UpStaysBelowBatch` | docker-sensor/src/main.rs:293-425 | With the ingress up and fewer than 50 events buffered (as after a restart), the buffer stays below 50 over every run, nothing is dropped, and the next accepted flush settles everything received, in order |
| `DockerSensor.FlushTells` | docker-sensor/src/main.rs:293-369 | What one flush does to each buffered event: stored or rejected in a request of at most 100 items that an ingress takes, with the checkpoint at the last one; otherwise kept in order, unless 5,000 later ones are buffered |
| `DockerSensor.BatchExactlyWhen` | docker-sensor/src/main.rs:416-425 | With the ingress up and at most 99 events buffered, a received event is flushed exactly as the fiftieth or a later one |
| `DockerSensor.DropsOnlyTheOldest` | docker-sensor/src/main.rs:357-368 | Over every run an event is dropped only when 5,000 later ones had been received |
| `DockerSensor.CheckpointIsLastAnswered` | docker-sensor/src/main.rs:334-341 | Over every run in which it can be saved, the checkpoint is the second of the last event that was stored or rejected |
| `SensorPipeline.NoSilentLossFromCheckpoint` | docker-sensor/src/main.rs:233-369 | Once a checkpoint is saved and no connection without it is pending, across all reconnects, outages and crashes with a readable checkpoint file: a reportable event with a second before the checkpoint was stored, rejected as an item, or dropped; any other is accounted for, queued, ahead of the stream, or read again from the checkpoint |
| `SensorPipeline.NoSilentLoss` | docker-sensor/src/main.rs:233-369 | The same over every run, for events since the latest connection without a usable checkpoint |
| `SensorPipeline.NextInv` | docker-sensor/src/main.rs:233-443 | Every step (record, load, open, read, end, receive, tick, restart) keeps the coverage invariant |
| `SensorPipeline.NothingNewIsLostExactlyWhen` | docker-sensor/src/main.rs:233-290 | In every reachable state: over all runs from it with a readable checkpoint file, each reportable event recorded from then on is accounted for, queued or ahead of the stream whenever a stream is open, exactly when a checkpoint is saved and the connection about to open is not without one |
| `SensorPipeline.RestartCatchesUp` | docker-sensor/src/main.rs:233-443 | From every reachable state with a saved checkpoint, a stuck buffer included, some run that begins with a restart leaves every reportable event since the latest blind connection answered for or dropped, and queue and buffer empty |
| `SensorPipeline.OpenCovers` | docker-sensor/src/main.rs:233-248 | A connection leaves nothing unaccounted behind its start, from the latest connection without checkpoint on |
| `SensorPipeline.LateCheckpointDoesNotHelp` | docker-sensor/src/main.rs:268-273 | A run in which a checkpoint is saved while a connection without one is pending |
| `SensorPipeline.LostForever` | docker-sensor/src/main.rs:268-369 | An event behind the checkpoint, the stream and the queue is never delivered and never counted in any run |
| `SensorPipeline.BlindReconnectLoses` | docker-sensor/src/main.rs:268-290 | Any event can be lost so by a second connection without checkpoint |
| `StreamSplitter.SplitStream` | docker-sensor/src/main.rs:249-264 | For every way of cutting a text into chunks, the loop hands over the non-blank lines and keeps the unfinished tail of the whole text split at its newlines |
| `StreamSplitter.CutIsSplit` | docker-sensor/src/main.rs:251-257 | Any cut of a text into newline-free lines and a newline-free tail is that split |
| `StreamSplitter.NonBlankOfParts` | docker-sensor/src/main.rs:249-264 | The lines are handed over one by one in their order |
| `StreamSplitter.NonBlankOfOne` | docker-sensor/src/main.rs:254-256 | A line is handed over, unchanged, exactly if it holds a character that is not white space |
| `RateLimiter.Limiter.CheckKey` | api/src/main.rs:191-220 | One check: the new map and the decision are those of the pruning specification |
| `RateLimiter.PruningIsInvisible` | api/src/main.rs:190-220 | Over any run whose readings lag by at most a bound, a key whose window is shorter than all others by that bound gets the decisions of a limiter that never prunes |
| `RateLimiter.PruningIsInvisibleExactlyWhen` | api/src/main.rs:281-306 | With one window for each key and any bound on the lag, pruning is invisible to a key over all runs exactly when its window is zero or every other one is longer by at least the bound |
| `RateLimiter.FewKeysSeeNoPruning` | api/src/main.rs:194-196 | With at most 10,000 keys in use pruning is invisible to all of them, whatever the windows and readings |
| `RateBounds.RateBoundExactlyWhen` | api/src/main.rs:191-220 | With one window for each key and any bound on the lag, a key checked with any constant limit L >= 1 has at most 2L - 1 allowed checks in any half-open interval of its window, over all runs, exactly when its window is zero, or the lag is at most one tick and every other window is longer by at least the lag |
| `RateBounds.RateBound` | api/src/main.rs:191-220 | In a run in which no check uses a shorter window W than the key, with readings lagging by at most d, any interval of length at most W - d and at most W - 2d + 1 has at most 2L - 1 allowed checks of the key |
| `RateBounds.RateBoundWhenInvisible` | api/src/main.rs:191-220 | Where the other windows are longer by the lag d, the same for length at most W and at most W - d + 1 |
| `RateLimiter.CloseWindowResets` | api/src/main.rs:194-196 | The failing run for every window that is not longer by the lag: allowed, refused, and allowed again inside the window of the key |
| `RateBounds.RateBoundIsReached` | api/src/main.rs:191-220 | Some run without lag reaches 2L - 1, for every key, limit and window of at least two ticks |
| `RateBounds.LagReachesThreeBuckets` | api/src/main.rs:192-206 | Some run of a single key, with readings that lag by two ticks, has 3L - 2 allowed checks in one window, for every key, limit and window |
| `RetryTimes.RetryTimesExactlyWhen` | api/src/main.rs:206-220 | Over all runs, after a refusal the key is refused before the retry time and allowed by the first check at or after it, exactly when its window is zero, or no reading lags and no key has a shorter window |
| `RetryTimes.RetryAfterIsExact` | api/src/main.rs:206-220 | The same for a run without lag in which no check uses a shorter window than the key |
| `RetryTimes.RemainingExactlyWhen` | api/src/main.rs:201-220 | Over all runs, after an allowed check exactly as many checks of the key as its remaining count are allowed before its retry time, the others refused, all with that retry time, and the first check from then on starts anew with one less than the limit, exactly when no reading lags and no key has a shorter window |
| `RetryTimes.RemainingIsExact` | api/src/main.rs:201-220 | The same for a run without lag in which no check uses a shorter window than the key |
| `Csv.ValuesAsCsv` | api/src/main.rs:6966-6989 | The printing loop produces the specified document |
| `Csv.RoundTrip` | api/src/main.rs:6958-6989 | The document reads back as header and all cell texts exactly when there is a column and all column names are free of comma, quote and line feed; cell texts are unrestricted |
| `Csv.DirtyIsLost` | api/src/main.rs:6966-6968 | A name that needs quoting but is printed without is never read back |
| `Csv.ReadEscaped` | api/src/main.rs:6958-6964 | Every escaped text reads back as itself before any separator |
| `Csv.ExportTells` | api/src/main.rs:6966-6989 | What a reader gets, cell by cell: nothing for an absent member, a string as it is, the JSON text of anything else |
| `Csv.QuotedExactlyWhen` | api/src/main.rs:6958-6964 | A text is printed as it is exactly if it holds no comma, quote or line feed |
| `Csv.DocumentDeterminesCells` | api/src/main.rs:6966-6989 | Equal exports carry equal cells |
| `AlertGrouping.GroupAlertEvents` | correlation/src/lib.rs:55-89 | For any input, one record for each group: its key, all its members in input order, their minimal time, the last member's time, confidence min(100, 60 + 3(n - 1)) |
| `AlertGrouping.RecordsPartitionEvents` | correlation/src/lib.rs:57-87 | For any input, exactly the events with the source and the type that the rule names, if it names them, are in a record, each in exactly one, once, in input order |
| `AlertGrouping.AlertSessions` | correlation/src/lib.rs:66-80 | On time-sorted input two matching events share a record exactly when they name one source and one type, or their key texts meet at another colon, and no gap between successive events of that key exceeds the window |
| `AlertGrouping.KeysIdentify` | correlation/src/lib.rs:66-70 | For types without a colon, whatever the rule and the sources, one key is one source and one type |
| `AlertGrouping.KeysCanMeet` | correlation/src/lib.rs:66-70 | Otherwise two different sources can have one key |
| `AlertGrouping.ConfidenceBySize` | correlation/src/lib.rs:78-85 | The confidence is 57 + 3n for n up to 14 events, then 100 |
| `AlertGrouping.RecordEnclosesMembers` | correlation/src/lib.rs:75-77 | On time-sorted input a record's times enclose its members |
| `Sessions.GroupsAreSessions` | correlation/src/lib.rs:66-80 | In-place first-fit grouping of any keyed, time-sorted items is the gap-based session specification |
| `Sessions.EveryItemHasOneGroup` | correlation/src/lib.rs:57-87 | In any order, exactly the keyed items have a group, one each, uniform in key, none empty |
| `Indicators.ExtractIndicators` | correlation/src/lib.rs:219-265 | The accumulating traversal returns the specified set |
| `Indicators.ExtractExact` | correlation/src/lib.rs:225-265 | A string is an indicator exactly if some leaf at some path yields it under its nearest member name |
| `Indicators.IndicatorsTell` | correlation/src/lib.rs:225-265 | A string is an indicator exactly if some leaf shows it: a text of 3 to 512 bytes, trimmed and in lower case, whose nearest member name is one of the thirteen, or a number under asn |
| `Ordering.First` | correlation/src/lib.rs:139-141 | The first element of a `BTreeSet` is its minimum in code point order |
| `Correlation.CorrelateSymmetric` | correlation/src/lib.rs:106-182 | The whole match, key included, does not depend on the order of the pair |
| `Correlation.CorrelatesExactlyWhen` | correlation/src/lib.rs:106-182 | Two events match exactly when they differ, are of the six types, at most a window apart, and share a correlation id that is not blank, an indicator, or a source that is not blank where one is a provider error |
| `Correlation.ConfidenceTells` | correlation/src/lib.rs:119-182 | Each of the seven confidences has its exact condition on shared id, shared indicator, types and sources; likewise each relation and each kind of key, and the indicator of the key is the first shared one |
| `Correlation.KeyTextInjective` | correlation/src/lib.rs:122-177 | Comparing structured keys is comparing the printed keys |
| `Correlation.DeriveOutcome` | correlation/src/lib.rs:184-217 | The loop's outcome is that of the type set, the top severity and the best match, with the `u8` cast and saturation |
| `Correlation.ConfidenceAsIntended` | correlation/src/lib.rs:94-104 | Over correlatable events the confidence is min(100, best + 4(types - 1)) |
| `Correlation.IntendedConfidence` | correlation/src/lib.rs:194-201 | In numbers: that of the best match, four more for every further type, at most 100 |
| `Correlation.SeverityTells` | correlation/src/lib.rs:184-204 | The severity by the events: the highest name among them in any case, medium raised to high exactly if two types occur, info if none of the four names does |
| `Correlation.SummaryTellsTypes` | correlation/src/lib.rs:205-217 | Equal summaries of event chains are of equal sets of types |
| `Correlation.TruncationExactlyWhen` | correlation/src/lib.rs:199-201 | The `u8` cast is harmless exactly for at most 64 types or when the wrapped boost still reaches the cap |
| `Correlation.OutcomeMonotone` | correlation/src/lib.rs:184-204 | More events or matches never lower confidence or severity, including the raise from medium to high |
| `Correlation.OutcomeUnordered` | correlation/src/lib.rs:184-217 | The whole outcome, summary included, is independent of order and repetition |
| `Candidates.ProcessEvent` | correlation/src/main.rs:64-171 | The loops hand to the store, for any event and any answer of the store, what the specification says |
| `Candidates.NothingExactlyWhen` | correlation/src/main.rs:64-105 | Nothing is persisted exactly if the type is not correlatable, or nothing matches and the id is absent or blank |
| `Candidates.CandidateContents` | correlation/src/main.rs:84-171 | A lone candidate holds the event with its times and no confidence; a joint one holds the event and exactly the matching events with the strongest key, and one relation for each matching event with its match |
| `Candidates.SortIsStable` | correlation/src/main.rs:121-121 | The sort is descending, a permutation, and keeps the order of equal confidences |
| `Candidates.KeyIsCorrelationIdExactlyWhen` | correlation/src/main.rs:121-122 | With any match, the key is the event's correlation id exactly when a recent event shares it and either one of those has another type or no event of another type shares an indicator |
| `Candidates.TimesEncloseEvent` | correlation/src/main.rs:155-164 | Persisted times enclose the event, reach one window either way, and span at most two |
| `Candidates.TimesOfEvents` | correlation/src/main.rs:155-164 | The persisted times are the first and last time among the candidate's events |
| `Candidates.ConfidenceOfCandidate` | correlation/src/main.rs:121-135 | The persisted confidence is the best of all matches plus four for each further type of the candidate, up to 100 |
| `CandidateTable.Store.Persist` | storage/src/lib.rs:1040-1112 | The transaction extends a newest live candidate of the key within the window or opens one |
| `CandidateTable.OpensExactlyWhen` | storage/src/lib.rs:1041-1056 | A correlation opens a row exactly when no live row of its key was seen at most a window before it; otherwise it extends and reopens a latest one and leaves all others |
| `CandidateTable.RowsAreSummaries` | storage/src/lib.rs:1057-1097 | Over any run from the empty table every persisted correlation is taken in by exactly one row, and a row is the summary of those it took in: their events and key, the first and last time, the greatest confidence, the highest severity by name, the latest text |
| `CandidateTable.RowsOnlyGrow` | storage/src/lib.rs:4966-4979 | Over any run, whatever happens to the statuses in between, no candidate is lost or shortened or gets less confident or less severe in the order critical, high, medium, low; every persisted correlation stays in a row of its key that is at least as severe and as confident |
| `CandidateTable.FollowUpExtendsExactlyWhen` | correlation/src/main.rs:84-119 | A follow-up of another type with the same id extends a candidate whatever the table holds, exactly when the id has no surrounding white space |
| `FailureRuns.ListRuns` | scripts/pilot-observation-evaluate.py:85-96 | The records name first time, last time and length of each run |
| `FailureRuns.CountRuns` | scripts/phase7b-observe.py:346-354 | The streaming counters are the number and greatest length of the same runs |
| `FailureRuns.RunsExact` | scripts/pilot-observation-evaluate.py:85-96 | The runs are exactly the maximal failing ranges |
| `FailureRuns.RunsSeparate` | scripts/pilot-observation-evaluate.py:85-96 | They are listed once each from left to right, with a success between them |
| `FailureRuns.RunsSumToFailed` | scripts/pilot-observation-evaluate.py:85-96 | Their lengths add up to the failed cycles |
| `FailureRuns.LongestIsWorstTrailing` | scripts/phase7b-observe.py:305-310 | No run exceeds a bound exactly when the probe's consecutive counter never does |
| `FailureRuns.SuccessGapIsLongestGap` | scripts/phase7b-observe.py:355-357 | The greatest difference of successive gap points is the length of the longest success-free interval |
| `ObservationProbe.Probe` | scripts/phase7b-observe.py:265-313 | For every plan and environment the loop ends, its rows report their cycles, each cycle starts exactly when the one before has turned to it, the window, the limits and every bound on going on are kept, and the exit states why there was no next cycle |
| `ObservationProbe.ExitTells` | scripts/phase7b-observe.py:272-288 | No cycle begins under a stop file, past the cycle bound or the run-time bound (zero is none); the run ends for the first reason that applies: end of window, stop file, run time, cycles |
| `ObservationProbe.RunAttempts` | scripts/phase7b-observe.py:292-299 | The attempt loop ends as the cycle specification says, after exactly its time |
| `ObservationProbe.WorstCycleIsWorstExactlyWhen` | scripts/phase7b-observe.py:178-180 | `worst_cycle` bounds every cycle of every environment exactly when no earlier possible end of a cycle exceeds it |
| `ObservationProbe.NonNegativeBackoffFits` | scripts/phase7b-observe.py:176-180 | It does when no back-off time is negative |
| `ObservationCadence.NonNegativeBackoffKeepsPace` | scripts/phase7b-observe.py:176-180 | Without negative back-off times no end of a cycle exceeds max(interval, worst_cycle) |
| `ObservationCadence.CadenceExactlyWhen` | scripts/phase7b-observe.py:160-187 | Successive cycle starts are at most max(interval, worst_cycle) and the probe's delays apart, in every window and environment, exactly when no possible end of a cycle takes longer or the limit is negative |
| `ObservationCadence.NoHiddenGapExactlyWhen` | scripts/phase7b-observe.py:177-179 | They stay below three intervals, for a prompt probe, exactly when every possible end of a cycle does or the limit is negative |
| `ObservationCadence.GapsWithinExactlyWhen` | scripts/phase7b-observe.py:265-313 | In the plan's own window, any bound of at least the interval holds for all gaps, up to the probe's delays, exactly when the limit is negative or every slower end of a cycle leaves no room for another cycle in the window |
| `ObservationCadence.TurnTells` | scripts/phase7b-observe.py:311-313 | The probe turns to its next cycle at once after a cycle that took its interval, else when the interval is over, or already when the window ends, the delay on waking aside |
| `ObservationCadence.NegativeBackoffHidesGap` | scripts/phase7b-observe.py:160-187 | An accepted plan with a negative back-off time has a run with five intervals between its cycle starts |
| `ObservationProbe.LoggedIsBounded` | scripts/phase7b-observe.py:265-313 | The number of cycles is at most the window divided by the interval, rounded up |
| `ObservationEvaluation.Evaluate` | scripts/phase7b-observe.py:335-374 | The report on the rows inside the window, in time order, with its telemetry verdicts |
| `ObservationEvaluation.ReportedGap` | scripts/phase7b-observe.py:355-357 | With all rows at most now, the reported gap is the longest success-free interval between window start and min(now, end) |
| `ObservationVerdicts.GapVerdictTells` | scripts/phase7b-observe.py:355-373 | With a row inside the window and all rows at most now: met exactly when no time without a valid row, from the start to now or the end, is longer than the limit, not met exactly when some is; without a row not measured |
| `ObservationVerdicts.AvailabilityVerdictTells` | scripts/phase7b-observe.py:360-369 | Cycles and good cycles are the numbers of rows and valid rows inside the window, and the verdict compares their share with the required one |
| `ObservationVerdicts.ConsecutiveVerdictTells` | scripts/phase7b-observe.py:370-371 | Not met exactly when more successive counted rows than the limit allows are without a valid snapshot |
| `ObservationVerdicts.IdleVerdictTells` | scripts/phase7b-observe.py:374-374 | Measured with a valid row inside the window, met exactly when no such row reports an issue |
| `ObservationVerdicts.CoverageVerdictTells` | scripts/phase7b-observe.py:358-366 | Measured after the window with a row inside, met exactly when there are rows for 95 in 100 of the whole intervals of the window (at least one) |
| `ObservationVerdicts.RunsReported` | scripts/phase7b-observe.py:346-354 | The reported number of runs is that of the maximal ranges of failing counted rows |
| `ObservationVerdicts.IssuesReported` | scripts/phase7b-observe.py:361-361 | The reported issues are exactly those of valid rows inside the window |
| `ObservationEvaluation.ProbeRows` | scripts/phase7b-observe.py:265-313 | No run of failures is longer than the limit and one, only the last row can hold a state issue; the rows are numbered on and hold the problems of their snapshot or that there was none |
| `ObservationEvaluation.CleanRunSatisfiesEvaluator` | scripts/phase7b-observe.py:335-374 | A run not stopped for telemetry or state (one that saw its window elapse, say) never makes the evaluator report the failure limit as not met or any state issue |
| `ObservationEvaluation.EvaluatorAgreesWithExit` | scripts/phase7b-observe.py:305-374 | With prompt readings and a non-negative limit, each of the two criteria is not met exactly for the run stopped for it |
| `ObservationEvaluation.Cadence` | scripts/phase7b-observe.py:176-182 | In every run of a plan that keeps its pace, successive cycle starts are between one interval and max(interval, worst_cycle) and the probe's own delays, the former below three intervals |
| `ObservationEvaluation.CyclesOfWindow` | scripts/phase7b-observe.py:265-313 | The number of cycles of a whole window from both sides |
| `ObservationEvaluation.WholeWindowIsCovered` | scripts/phase7b-observe.py:359-371 | A whole window probed by cycles that fit the interval meets the coverage criterion |

## Left out

- QuarantineTheorems.ExactRestoration: for a container the guarantee is that every saved network is attached again as it was saved; the adapter does not remove networks that others attached since. Restoring tasks that are still undecided are the subject of `QuarantineLateRestore`.
- SensorPipeline.NoSilentLoss: speaks of events from the last connection without a usable checkpoint on, because the sensor keeps no trace of earlier ones; `SensorPipeline.NothingNewIsLostExactlyWhen` says exactly from when on none is lost.
- DockerSensor.BatchSender.FlushBuffer: the drop counter counts what the sender gives up; the lines that the reader cannot parse or turn into a valid envelope, which the same metric also counts (`docker-sensor/src/main.rs:171`, `docker-sensor/src/main.rs:226`), are entries that are not reportable, and uncounted.
- ObservationEvaluation.Evaluate: the canary, lockout, drift and false-positive criteria are counts and comparisons over separate files; rounding in printed details is left out.
- QuarantineDispatch.ClosedGate: the requests of all other actions go to a dispatcher that is not part of this model.
- The quarantine runtime is a transition system instead of methods, because the properties are about interleaved processes, crashes between `await` points and tasks that land late. The time-out that selects a generation for recovery, the expiry and approval checks before an application, the protection list, concurrency leases and error texts only stop a process early, which the model allows at every point.
- Tailscale targets: they are refused before any row is prepared, and only their validation is modelled.
- Sessions works on values; the source's vector of groups is updated in place by `AlertGrouping.GroupAlertEvents`.
- The relationship rows that `persist_correlation` writes beside the candidate (`storage/src/lib.rs:1090-1108`): the relations handed to the store are modelled, their table is not.
- Correlation matches carry no printed reason: it is a function of the key.
- The reasons, summaries and audit fields that the API and the probe only format, HTTP handlers, authentication and configuration.
- UTF-8 decoding across chunk boundaries, the parser of a single Docker event, heartbeats, and the file format of the checkpoint.
- The attempt details and the snapshot data of a probe row, and the JSON form of plans and rows.
- The truncated `Retry-After` header and the role multipliers of the rate policies.
