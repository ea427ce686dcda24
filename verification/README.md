# Hostpin control logic, modelled and proved in Dafny

Hostpin is a monitoring server with agents. This project models the parts of it that are hard to get
right by reading: traffic billing, enrollment with one-time PINs, the persistence queue, backup and
restore, alerting, rate limiting, update ordering, probe scheduling, agent configuration and metric
rollups. Each part is a module of its own. Objects whose methods change fields are classes; their
methods are proved against functions on plain values, and whole runs are reasoned about on those
values. Protocols between concurrent requests or goroutines are state machines whose steps interleave
freely; a SQL transaction is one step.

`dafny verify dfyconfig.toml` checks everything.

| file | part |
|---|---|
| Basics.dfy | optional values, minimum, maximum and shared constants |
| Calendar.dfy | civil calendar, billing period starts |
| Traffic.dfy | 64-bit arithmetic, the traffic tracker, what its totals mean |
| TrafficSystem.dfy | tracker, hub and node table together; accepting samples, saving and clearing corrections |
| TrafficRaces.dfy | handlers that other requests overtake |
| TrafficWrites.dfy | the single writes of the handlers, interleaved |
| TrafficRestart.dfy | restarting over stored corrections |
| Enrollment.dfy | PIN check, PIN claim, enrollment, replace, revoke, delete |
| Persister.dfy | the drop-oldest queue with many producers and one retrying worker |
| Restore.dfy | the file swap of a restore and its rollback |
| Container.dfy | the encrypted backup container |
| Archive.dfy | archive paths, extraction, the later check of staged files |
| Alerts.dfy | the alert engine |
| Limiter.dfy | the enrollment limiter |
| Text.dfy, Versions.dfy | version parsing and order |
| Scheduler.dfy | the probe scheduler |
| AgentConfig.dfy | compare-and-swap saves, acknowledgements |
| Rollup.dfy, Downsample.dfy | metric rollups, history thinning |

## Conventions

- Instants are integers: nanoseconds since 1 January of year 1 UTC (milliseconds in Rollup.dfy), so the
  zero time is 0. The clock is a parameter of each step and never goes back within a run.
- `uint64` and `int64` are bounded subset types; every other integer is unbounded.
- Failures of the outside world are inputs: whether a save, a transaction or a file operation succeeds
  is quantified over. Cipher, key derivation, hash and codecs are arbitrary functions with the laws
  that the statements name.
- Floating-point metric values are reals, and thinning positions are exact unless a lemma says otherwise.

## Where the code falls short of a plain reading

These are stated as lemmas together with the exact condition under which the code does meet the
property.

- A save of a traffic correction reads its snapshot before it writes. If its writes are not disturbed,
  then whatever is handled before them, also the end of the billing period, the hub is right exactly
  when the captured totals are still current (`LateSaveAgreesIffStillCurrent`,
  `OvertakenSaveAgreesIff`; wrong in `OvertakenSaveExample`). The node's next sample repairs it
  (`NextSampleRepairsLateSave`), and from then on the target counts from the snapshot
  (`OvertakenSaveCountsFromSnapshot`). The same holds for a clear (`OvertakenClearAgreesIff`,
  `OvertakenClearExample`).
- Counting and publishing a sample are apart. A save in between leaves the hub right exactly when its
  target is what the hub already showed, a clear exactly when no correction was in effect, and another
  sample exactly when no traffic came after the overtaken one (`SaveInsideAcceptAgreesIff`,
  `ClearInsideAcceptAgreesIff`, `OvertakenAcceptAgreesIff`, each with an example of its own). The node's
  next sample repairs each of them.
- A save or clear writes the node's row, the tracker's policy and the hub one after another. Over every
  interleaving of these writes the node's next sample restores the agreement exactly when row and policy
  were last written with the same correction (`NextSampleAgreesIff`); that is so whenever no other row
  write comes between the two writes of a handler (`UnbrokenWritesAgree`). Two saves whose writes cross
  leave the table and the tracker apart, and no sample repairs that: it lasts until another save, clear
  or restart (`CrossedSavesStayWrong`, `TornUntilWrittenAgain`).
- A restart resumes with hub, tracker and node table in agreement exactly when every stored correction
  has a checkpoint on which it can be displayed without clamping (`RestartConsistentIff`; an input where
  it clamps is in `RestartClampsAtZero`). The totals shown right after it are those shown before exactly
  when no traffic was counted since the checkpoint or nothing was shown (`RestartShowsSameIff`). The
  node's next sample shows the saved target plus the traffic since the save, whichever checkpoint of the
  period and boot the server came back with (`SavedTargetSurvivesRestart`).
- The database cuts counters and totals at the largest int64. A restart from a cut checkpoint counts on
  rightly exactly when it cut equally much off both, or the total is at its maximum anyway
  (`RestartAgreesAtNextSample`, `RestartCutsLargeTotal`).
- The comment on Uncorrect promises exact reversal; it holds exactly while the corrected total stays
  inside the unsigned range (`SubtractUndoesAddIffInRange`).
- The lifecycle sweep is observed by exactly the enabled rules in scope on a sampled metric or the
  online bit, not by "online" rules alone (`SweepObservedExactlyBy`). A rule saves no event exactly when
  no run of true conditions lasts for its duration at a time when a save succeeds
  (`PairSilentExactlyWhen`). So a rule whose condition fails on the sweep's values never fires about a
  node that is swept at shorter intervals than the rule's duration (`SweepsKeepRuleSilent`, with a busy
  node in `SweepSuppressesBusyAlert`).
- The rollup cutoff is not aligned to buckets: the bucket it falls into is recomputed from its newer
  rows alone and may lose its maximum (`CutBucketKeepsMaximumIff`, `CutBucketLosesPeak`).
- Pre-release identifiers of digits beyond the integer range are compared as text, with each other and
  with identifiers that are no numbers. The order is the one of Semantic Versioning 2.0.0 exactly when
  the first identifiers that differ are ordered alike as text (`OrderIsSemanticPrecedenceIff`); in
  `OversizedMisordered` a lower version counts as newer.

## Model

| member | source | states |
|---|---|---|
| Calendar.DaysInMonthIsMonthLength | internal/core/traffic.go:210-212 | asking for day 0 of the following month yields the Gregorian length of every month of every year |
| Calendar.BillingGap | internal/core/traffic.go:189-208 | consecutive resets are 28 to 31 days apart for every month and reset day, despite clamping and leap years |
| Calendar.PeriodStartLocates | internal/core/traffic.go:189-208 | the branches over this and the previous month find the reset whose period encloses the instant |
| Calendar.PeriodStartIsGreatest | internal/core/traffic.go:189-208 | the period start is the greatest reset instant not after the given instant |
| Calendar.PeriodStartFixesResets | internal/core/traffic.go:189-208 | an instant is its own period start exactly if it is a reset; the function is idempotent |
| Calendar.PeriodStartMonotone | internal/core/traffic.go:189-208 | later instants never have earlier period starts |
| Calendar.SamePeriodIffNoReset | internal/core/traffic.go:189-208 | two instants share a period start exactly if no reset falls between them |
| Calendar.NextPeriodStart | internal/core/traffic.go:189-208 | the next reset comes 28 to 31 days after the start and all instants before it share the start |
| Calendar.ResetDayOutsideMonth | internal/core/traffic.go:194-196 | a reset day outside 1 to 31 stands for the first of the month |
| Traffic.SignedArithmeticClamps | internal/core/traffic.go:151-180 | adding and subtracting a signed adjustment is integer arithmetic clamped to the unsigned range, also for the least int64 |
| Traffic.SubtractUndoesAddIffInRange | internal/core/traffic.go:113-126 | an adjustment can be undone exactly if and only if applying it stayed within the unsigned range |
| Traffic.TrafficTracker.Load | internal/core/traffic.go:36-48 | loading replaces state and policy of exactly the nodes that have a sample, whatever order the map is visited in |
| Traffic.TrafficTracker.Apply | internal/core/traffic.go:50-88 | the new state of the node and the raw sample; other nodes keep theirs |
| Traffic.TrafficTracker.ConfigureNode | internal/core/traffic.go:90-96 | only the node's policy changes |
| Traffic.TrafficTracker.Correct | internal/core/traffic.go:98-111 | the presentation copy, corrected in the correction's own period only |
| Traffic.TrafficTracker.Uncorrect | internal/core/traffic.go:113-126 | the reverse adjustment, in the correction's own period only |
| Traffic.TotalIsClampedUsage | internal/core/traffic.go:66-87 | within a period the total is the sum of same-boot non-decreasing counter deltas, cut off at the largest uint64 |
| Traffic.ClimbingUsageTelescopes | internal/core/traffic.go:78-84 | for one boot's non-decreasing counters that sum is last minus first |
| Traffic.RestartAgreesAtNextSample | internal/core/traffic.go:36-48 | reloading from any earlier checkpoint of the period and boot yields the same total at the next sample as never restarting, if and only if storage cut as much off the total as off the counter (nothing, within int64) or the total saturates either way |
| Traffic.RestartCutsLargeTotal | internal/store/sqlstore/metrics.go:27-32 | an input on which a total beyond int64 is lost by the restart |
| Traffic.UnreceivedSampleUsesCollectionTime | internal/core/traffic.go:144-149 | a sample without a time of receipt is corrected, with clamping, by the period it was collected in |
| Traffic.LoadedWithoutRow | internal/core/traffic.go:36-48 | a sample whose node has no row is loaded without a correction and with months from the first |
| Traffic.LoadKeepsOthers | internal/core/traffic.go:36-48 | loading leaves nodes without a sample as they were |
| TrafficSystem.Hub.Publish | internal/core/hub.go:39-75 | the latest sample is replaced, and it is due for persistence exactly if none was persisted or the interval has passed |
| TrafficSystem.Hub.ReplaceLatest | internal/core/hub.go:77-108 | the latest sample is replaced without touching the persistence schedule |
| TrafficSystem.Api.AcceptSample | internal/httpapi/agent.go:270-291 | stamp, apply, correct and publish act on tracker and hub, undisturbed, as one step |
| TrafficSystem.Api.TrafficCorrectionSnapshot | internal/httpapi/admin_traffic.go:47-64 | the status is read off hub, tracker and node without changing them |
| TrafficSystem.Api.SaveTrafficCorrection | internal/httpapi/admin_traffic.go:75-120 | undisturbed: each rejection changes nothing; a save stores the adjustment, reconfigures the tracker and republishes the sample |
| TrafficSystem.Api.ClearTrafficCorrection | internal/httpapi/admin_traffic.go:122-144 | undisturbed: clearing removes the adjustment, reconfigures the tracker and republishes the raw totals |
| TrafficSystem.AcceptKeepsConsistent | internal/httpapi/agent.go:270-291 | accepting a sample keeps hub, tracker and node table in agreement, also across a period boundary |
| TrafficSystem.UncorrectRecoversRaw | internal/httpapi/admin_traffic.go:58-60 | in a consistent world the snapshot's raw totals are the tracker's |
| TrafficSystem.SaveKeepsConsistent | internal/httpapi/admin_traffic.go:75-120 | saving keeps the agreement, leaves raw totals alone and makes the hub show the targets |
| TrafficSystem.ClearKeepsConsistent | internal/httpapi/admin_traffic.go:122-144 | clearing keeps the agreement and leaves raw totals alone |
| TrafficSystem.RunStaysConsistent | internal/httpapi/admin_traffic.go:47-151 | the agreement holds after every run of accepted samples, saves and clears |
| TrafficSystem.HubShowsCorrectedTotals | internal/httpapi/agent.go:275-278 | after every run from a fresh start the hub shows exactly the corrected raw totals, and undoing the correction gives them back |
| TrafficSystem.SavedTargetPlusTraffic | internal/httpapi/admin_traffic.go:99-115 | after a save the hub shows the target plus the traffic counted since, for the rest of the period |
| TrafficSystem.SaveDoneExactlyWhen | internal/httpapi/admin_traffic.go:75-104 | in a consistent world a save succeeds exactly for a monitor with a sample of the current period, targets within int64 and a working store, and changes nothing otherwise |
| TrafficSystem.ClearShowsRawTotals | internal/httpapi/admin_traffic.go:122-144 | a clear succeeds exactly for a monitor with a working store; the row then has no correction and the hub shows the tracker's raw totals |
| TrafficSystem.SnapshotTells | internal/httpapi/admin_traffic.go:47-64 | in a consistent world the status tells the shown and the tracker's raw totals, and is available exactly in the tracker's period |
| TrafficSystem.AcceptShowsSample | internal/httpapi/agent.go:270-278 | the hub gets the sample that came in with nothing but id, times and totals rewritten |
| TrafficSystem.FirstSampleCountsNothing | internal/core/traffic.go:58-72 | the first sample of a node or of a period counts no traffic, whatever its counters say |
| TrafficSystem.HubShowsTrafficSinceFirstSample | internal/core/traffic.go:50-88 | over every run within a period without a correction the hub shows exactly the traffic from the node's first sample on |
| TrafficSystem.PersistedApart | internal/core/hub.go:39-46 | over every run a node's samples reach the database at least the interval apart |
| TrafficSystem.PersistedInTime | internal/core/hub.go:39-46 | an accepted sample is handed to the database exactly if none was within the interval before |
| TrafficRaces.RunKeepsCaptured | internal/httpapi/admin_traffic.go:90-99 | after any requests a snapshot is of this period with no more than the present totals, or of an earlier period |
| TrafficRaces.LateSaveAgreesIffStillCurrent | internal/httpapi/admin_traffic.go:90-115 | a save from an earlier snapshot, also one of an earlier period, leaves the hub right if and only if the captured total is still current |
| TrafficRaces.OvertakenSaveAgreesIff | internal/httpapi/admin_traffic.go:75-120 | read, any requests, write: the hub is right if and only if the raw total is what it was when read |
| TrafficRaces.OvertakenSaveCountsFromSnapshot | internal/httpapi/admin_traffic.go:99-115 | after the next sample an overtaken save shows its target plus the traffic since its snapshot |
| TrafficRaces.OvertakenSaveExample | internal/httpapi/admin_traffic.go:109-115 | a snapshot, a sample and the write from a world in agreement, after which the hub shows 100 where 150 is right |
| TrafficRaces.NextSampleRepairsLateSave | internal/httpapi/admin_traffic.go:109-115 | after an overtaken save with undisturbed writes the node's next sample restores the agreement, also if the period has ended |
| TrafficRaces.OvertakenClearAgreesIff | internal/httpapi/admin_traffic.go:122-144 | read, any requests, write: a clear leaves the hub right if and only if the raw total is what it was when read, and the next sample restores the agreement |
| TrafficRaces.OvertakenClearExample | internal/httpapi/admin_traffic.go:136-140 | a clear overtaken by 50 bytes after which the hub shows 0 |
| TrafficRaces.SaveInsideAcceptAgreesIff | internal/httpapi/agent.go:275-278 | a save between counting and publishing a sample leaves the hub right if and only if its target is what the hub already showed |
| TrafficRaces.SaveInsideAcceptExample | internal/httpapi/agent.go:275-278 | such a save after which the hub shows 50 where 150 is right |
| TrafficRaces.NextSampleRepairsSaveInsideAccept | internal/httpapi/agent.go:275-278 | after such a save the node's next sample restores the agreement |
| TrafficRaces.ClearInsideAcceptAgreesIff | internal/httpapi/agent.go:275-278 | a clear between counting and publishing a sample leaves the hub right if and only if no correction was in effect, and the next sample restores the agreement |
| TrafficRaces.ClearInsideAcceptExample | internal/httpapi/agent.go:275-278 | such a clear after which the hub shows 150 where 50 is right |
| TrafficRaces.OvertakenAcceptAgreesIff | internal/httpapi/agent.go:270-291 | a sample overtaken by another of its node before it is published leaves the hub right if and only if no traffic came after it in the period |
| TrafficRaces.OvertakenAcceptAcrossReset | internal/httpapi/agent.go:270-291 | if the period ends in between, the hub is right if and only if the new period has counted as much as the late sample shows |
| TrafficRaces.NextSampleRepairsOvertakenAccept | internal/httpapi/agent.go:270-291 | after an overtaken sample and any requests the next sample restores the agreement |
| TrafficRaces.OvertakenAcceptExample | internal/httpapi/agent.go:270-291 | counters 0, 50 and 100 of which the hub is left showing 50 |
| TrafficWrites.PartsInARowCommit | internal/httpapi/admin_traffic.go:102-115 | undisturbed, the parts of a save and of a clear do what the handlers do as one step |
| TrafficWrites.HandlerEventsInARow | internal/httpapi/admin_traffic.go:75-144 | the events of one handler in a row are enabled and write what the handler writes as one step; a failing store ends it without a change |
| TrafficWrites.SampleEventsInARow | internal/httpapi/agent.go:270-278 | the events of one sample in a row accept it |
| TrafficWrites.AdmittedAsTheHandler | internal/httpapi/admin_traffic.go:86-97 | a handler goes on to write exactly if the handler as one step would succeed |
| TrafficWrites.PreparedTotals | internal/httpapi/admin_traffic.go:109-115 | a clear puts the captured raw totals back under any policy, a save its targets under its own |
| TrafficWrites.RunStaysSane | internal/httpapi/admin_traffic.go:75-144 | over every interleaving of the parts, ids and reset days fit together |
| TrafficWrites.RunTracksWrites | internal/httpapi/admin_traffic.go:102-108 | over every interleaving, row and policy hold what was written to them last |
| TrafficWrites.SampleShowsPolicy | internal/httpapi/agent.go:275-278 | a sample is shown under the policy while the row says what is right |
| TrafficWrites.NextSampleAgreesIff | internal/httpapi/admin_traffic.go:102-115 | over every interleaving the next sample restores the agreement if and only if row and policy were last written with the same correction |
| TrafficWrites.NextSampleRightIff | internal/httpapi/admin_traffic.go:102-115 | direction by direction the next sample is right if and only if the two corrections do the same in its period or leave nothing to show |
| TrafficWrites.TornUntilWrittenAgain | internal/httpapi/admin_traffic.go:102-108 | the disagreement lasts until a handler of the node writes again |
| TrafficWrites.UnbrokenWritesAgree | internal/httpapi/admin_traffic.go:102-108 | if no other row write comes between a handler's two writes, row and policy differ only while some handler is between them |
| TrafficWrites.CrossedSavesStayWrong | internal/httpapi/admin_traffic.go:102-108 | a run of two saves after which no sample of the period is shown right |
| TrafficRestart.RestartConsistentIff | internal/httpapi/server.go:76-87 | a restart resumes with hub, tracker and node table in agreement exactly if every stored correction has a checkpoint on which it displays without clamping |
| TrafficRestart.RestartShowsSameIff | internal/httpapi/server.go:80-87 | right after a restart the hub shows what it showed before exactly if nothing was counted since the checkpoint or nothing was shown |
| TrafficRestart.RestartClampsAtZero | internal/httpapi/server.go:80-87 | a checkpoint, a save and a restart after which the stored correction clamps at zero and cannot be undone |
| TrafficRestart.RestartKeepsSchedule | internal/core/hub.go:30-37 | after a restart the next sample is due for the database an interval after the checkpoint |
| TrafficRestart.SavedTargetSurvivesRestart | internal/httpapi/server.go:76-87 | after a restart from any checkpoint of the save's period and boot the next sample shows the saved target plus the traffic since the save |
| Enrollment.Store.ReplaceTemporaryEnrollmentPIN | internal/store/sqlstore/enrollment_pins.go:36-55 | all unrevoked PINs are revoked and one new PIN is inserted, or nothing changes |
| Enrollment.Store.RevokeTemporaryEnrollmentPIN | internal/store/sqlstore/enrollment_pins.go:69-82 | only an unrevoked PIN with that id is revoked, and found is reported exactly then |
| Enrollment.Store.ClaimTemporaryEnrollmentPIN | internal/store/sqlstore/enrollment_pins.go:84-102 | the claim succeeds exactly on a usable PIN that is unclaimed or claimed by the same identity, and keeps the first time of use |
| Enrollment.Store.Enroll | internal/store/sqlstore/nodes.go:73-187 | every outcome with its effect on the three tables, with the database failing before the commit or after it; a failed insert rolls the claim back |
| Enrollment.Store.Delete | internal/store/sqlstore/nodes.go:298-316 | the node and its credential go together |
| Enrollment.Store.ActiveTemporaryEnrollmentPIN | internal/store/sqlstore/enrollment_pins.go:63-67 | the newest PIN that is neither revoked nor expired, if any |
| Enrollment.StepKeepsInvariant | internal/httpapi/agent.go:53-86 | every check, enrollment, replacement, revocation and deletion keeps the protocol's invariant |
| Enrollment.ReachableSatisfiesInvariant | internal/store/sqlstore/enrollment_pins.go:36-102 | over every interleaving at most one PIN is unrevoked, use and claim coincide, credentials match nodes and creations match claims |
| Enrollment.ClaimsAreWriteOnce | internal/store/sqlstore/enrollment_pins.go:84-102 | between any two states of a run a claim's identity, its time of use and a revocation stay as written |
| Enrollment.RevokedPinCreatesNothing | internal/store/sqlstore/nodes.go:105-109 | once a PIN is revoked no later creation goes through it, even for requests that passed the check before |
| Enrollment.OneIdentityPerPin | internal/store/sqlstore/nodes.go:80-160 | all nodes ever created through one PIN share install and token, and at most one of them exists at a time |
| Enrollment.ActivePinIsTheUnrevokedOne | internal/httpapi/agent.go:107-116 | in every reachable state the authorization query finds a PIN exactly if the only unrevoked one has not expired |
| Enrollment.ReEnrollReturnsSameNode | internal/store/sqlstore/nodes.go:80-101 | until its node is deleted an enrolled identity gets the same node back unless the database fails, even if its creation went unreported, and no row changes, whatever became of its PIN |
| Enrollment.FreshPinEnrolls | internal/store/sqlstore/enrollment_pins.go:84-102 | an unrevoked, unexpired, unclaimed PIN enrolls a new identity, which then owns it, with its time of use noted |
| Enrollment.ClaimedPinEnrollsItsOwner | internal/store/sqlstore/enrollment_pins.go:84-102 | a claimed PIN enrolls its own identity again once its node is gone, and keeps its first time of use |
| Enrollment.PermanentPinEnrolls | internal/store/sqlstore/nodes.go:105-109 | the permanent PIN enrolls any new identity and touches no PIN row |
| Enrollment.KnownIdentityOutcome | internal/store/sqlstore/nodes.go:80-101 | in a sound database a known install id gets its own node back or a conflict, and no row changes |
| Enrollment.ReplacedPinIsActive | internal/store/sqlstore/enrollment_pins.go:36-55 | a replaced PIN is the active one exactly until it expires, and every other is revoked |
| Enrollment.DeleteFreesIdentity | internal/store/sqlstore/nodes.go:298-316 | deleting a node frees its identity and leaves every other node and credential |
| Enrollment.CheckedRequestEnrolls | internal/httpapi/agent.go:53-86 | in every reachable state a checked request with a new identity and the active unclaimed PIN can enroll and does |
| Enrollment.FirstEnrollmentSucceeds | internal/httpapi/agent.go:53-86 | setting up a PIN, checking and enrolling before it expires is a run that ends with the node |
| Persister.StepMovesItems | internal/core/persister.go:37-141 | no step of a producer or of the worker creates, loses or duplicates an item |
| Persister.RunConserves | internal/core/persister.go:37-141 | conservation, the dropped counter up to calls about to count, and the capacity bound hold in every reachable state |
| Persister.ExactlyOneFate | internal/core/persister.go:37-141 | over every interleaving each submitted item has exactly one fate and nothing else has any; the queue stays within capacity; an item queued when the worker has stopped counts as queued |
| Persister.StoppedForGood | internal/core/persister.go:37-53 | once the worker has stopped nothing is saved any more, so what is queued then is lost to the shutdown |
| Persister.ShutdownDrainsFirst | internal/core/persister.go:43-52 | over every run nothing is abandoned before the time for draining is over, and a worker that stops before had emptied the queue |
| Persister.DeadlineNeedsDraining | internal/core/persister.go:125-127 | the time for draining runs only once draining has begun, which is after cancellation |
| Persister.ShutdownSavesAll | internal/core/persister.go:125-141 | a cancelled worker whose store works saves everything queued, in order, and stops |
| Persister.EnqueueNeverBlocks | internal/core/persister.go:66-82 | an item can be handed in at any time and every step of a call is possible and brings it nearer its end |
| Persister.ExpiredItemIsNotDiscarded | internal/core/persister.go:91-99 | after the deadline a held item is saved or abandoned, never discarded |
| Persister.WorkerKeepsTrying | internal/core/persister.go:84-114 | before shutdown the worker saves its item, rejects it or goes on trying |
| Persister.DegradedIsLastVerdict | internal/core/persister.go:66-108 | over every run the degraded flag says how the latest write or eviction went |
| Persister.DroppedCounterBalances | internal/core/persister.go:66-99 | submissions equal items under way, queued, held, saved, abandoned, counted as dropped and about to be counted |
| Persister.OneProducerKeepsOrder | internal/core/persister.go:66-82 | with one producer the queue is always a contiguous run ending with the latest item sent, and saves follow submission order |
| Persister.Channel.Enqueue | internal/core/persister.go:66-82 | an undisturbed call keeps the newest items that fit and counts what it pushed out |
| Persister.LoneCallKeepsNewest | internal/core/persister.go:66-82 | the selects and counts of one call in a row have the same effect in the interleaved model |
| Restore.Disk.Rename | internal/backup/restore.go:123-125 | a rename moves one path or fails without any change |
| Restore.Disk.RemoveAll | internal/backup/restore.go:102-104 | a removal empties one path, and a failed one affects no other |
| Restore.Swap.MoveExisting | internal/backup/restore.go:117-128 | an existing path is saved and listed, a missing one is skipped, and it reports an error exactly if its last operation failed |
| Restore.Swap.Activate | internal/backup/restore.go:141-144 | the staged copy replaces a vacated live path and is listed exactly if it exists and the rename succeeds; otherwise nothing changes |
| Restore.Swap.RemoveActivated | internal/backup/restore.go:101-105 | removing what was activated never harms a saved original, and succeeds cleanly if nothing fails |
| Restore.Swap.MoveBack | internal/backup/restore.go:106-111 | moving back keeps every original at its live or saved path, and cleanly undoes the moves if nothing fails |
| Restore.Swap.Rollback | internal/backup/restore.go:99-116 | if none of its operations fails, rollback restores the state before the swap |
| Restore.MoveAsideStep | internal/backup/restore.go:123-126 | one saving rename advances the swap by exactly that path |
| Restore.MoveBackStep | internal/backup/restore.go:106-111 | one restoring rename takes the swap back by exactly that path |
| Restore.Forward | internal/backup/restore.go:129-166 | the operations in order, stopping at the first that fails or finds no staged copy; all succeed otherwise |
| Restore.ApplyRestore | internal/backup/restore.go:96-171 | for every way operations can fail: success makes the staged content live without sidecars; the swap stops at the first failure, and if no operation of the rollback that follows fails everything is as before; no intermediate state loses an original |
| Container.BigEndianRoundTrip | internal/backup/container.go:211-224 | decoding the big-endian bytes of a number that fits gives the number back |
| Container.NonceInjective | internal/backup/container.go:196-201 | different chunk counters give different nonces |
| Container.EncryptContainer | internal/backup/container.go:53-117 | the chunking loop writes exactly the specified container, for every payload length |
| Container.ReadOneChunk | internal/backup/container.go:156-183 | one turn of the reading loop with each of its error exits |
| Container.DecryptContainer | internal/backup/container.go:119-184 | the reading loop gives the specified error and output for every byte string |
| Container.ChunksRoundTrip | internal/backup/container.go:89-183 | reading the written chunk stream gives the payload, with matching nonces, associated data and terminator |
| Container.ContainerRoundTrip | internal/backup/container.go:53-184 | decrypting an encrypted payload within the limit writes exactly the payload |
| Container.AcceptedContainersPrefixFree | internal/backup/container.go:161-167 | no proper extension of an accepted container is accepted, for any passphrases and limits |
| Container.OutputWithinLimit | internal/backup/container.go:168-182 | no input makes more than the limit be written, whether accepted or not |
| Container.ChunksUseSealNonces | internal/backup/container.go:102-104 | the listed nonces are the ones the chunks are sealed under |
| Container.NoncesPairwiseDistinct | internal/backup/container.go:102-111 | no two chunks of one container share a nonce |
| Container.AssociatedDataInjective | internal/backup/container.go:203-209 | the associated data tells header, position and length of a chunk apart |
| Container.NonceHasPrefix | internal/backup/container.go:196-201 | a nonce is the container's prefix followed by the 8 bytes of the counter |
| Container.Uint32Bytes | internal/backup/container.go:211-224 | a number's four bytes come most significant first |
| Container.ReadHeaderIsWithinLimits | internal/backup/container.go:123-146 | a container that is read at all starts with the magic string and carries a header within the limits |
| Container.ChunkReadsExactlyWhen | internal/backup/container.go:156-177 | which chunk reads and which error each other one gives, by its announced length |
| Archive.SafePathExactlyWhen | internal/backup/manager.go:605-608 | the path test accepts exactly names without backslash whose segments are all non-empty and neither "." nor ".." |
| Archive.IndexEntries | internal/backup/manager.go:424-437 | the first pass succeeds exactly if all entries are acceptable and differently named |
| Archive.IndexRecords | internal/backup/manager.go:456-471 | the second pass succeeds exactly if all records are acceptable, different and together within the size limit |
| Archive.ParentIff | internal/backup/manager.go:483-486 | the directories made for a file are exactly the paths that it continues with a slash |
| Archive.CopyFiles | internal/backup/manager.go:478-504 | copying succeeds, in any order, exactly if no recorded path lies below another and each recorded file is there, accessible, with its size and digest |
| Archive.FitsIffCountsAndFilesAgree | internal/backup/manager.go:472-482 | comparing counts, looking up each record and nesting none is the same as equality of entry names with manifest paths plus the manifest, all agreeing |
| Archive.ExtractAndValidate | internal/backup/manager.go:415-506 | extraction succeeds exactly on consistent archives, whose recorded paths can all be files of one tree, and yields exactly the declared files |
| Archive.WalkTree | internal/backup/restore.go:229-264 | the walk accepts exactly if no staged file is undeclared or changed and the numbers agree |
| Archive.VerifyPendingChecksums | internal/backup/restore.go:218-266 | the staged tree is accepted exactly if it is the manifest's set of files with matching sizes and digests |
| Archive.DigestComparisonMeans | internal/backup/manager.go:500-501 | case is all that the comparison of digests ignores |
| Archive.LowerCaseDigestsCompareEqual | internal/backup/manager.go:500-501 | digests without upper-case letters are the same only if they are equal |
| Archive.ExtractedFilesHashAsRecorded | internal/backup/manager.go:478-504 | every recorded file of an archive that extracts is there and hashes to the recorded digest, up to case |
| Archive.StagedFilesHashAsRecorded | internal/backup/restore.go:229-264 | every staged file that passes the later check hashes to the recorded digest, up to case |
| Archive.BookkeepingIsNoPayload | internal/backup/restore.go:241-243 | nothing that a manifest may list is exempt from the check |
| Archive.PayloadPathExactlyWhen | internal/backup/manager.go:610-612 | a payload path is the database, the key, or a file below the themes directory |
| Archive.EntryPassesExactlyWhen | internal/backup/manager.go:424-436 | an entry passes exactly if safe, regular, at most 6 GiB and unpacking to less than 1001 times its size |
| Alerts.HistoryDeterminesState | internal/alerting/engine.go:150-184 | pending time, firing flag and last event mean what the history of observations and saves says |
| Alerts.FiringSavedExactlyWhen | internal/alerting/engine.go:158-176 | a firing is saved exactly if none is open, the unbroken run of true conditions is long enough, the last event is a cooldown old and the save succeeds |
| Alerts.ResolvedSavedExactlyWhen | internal/alerting/engine.go:177-183 | a recovery is saved exactly if an alert is open, the condition fails, the value is past recovery and the save succeeds |
| Alerts.EventsAlternate | internal/alerting/engine.go:150-184 | saved events of a pair alternate, firing first, over every sequence of evaluations and save failures |
| Alerts.Engine.Emit | internal/alerting/engine.go:240-258 | an event is recorded exactly if saving it succeeds |
| Alerts.Engine.EvaluateRuleOn | internal/alerting/engine.go:150-184 | the state and events of one pair after one value |
| Alerts.Engine.Evaluate | internal/alerting/engine.go:134-148 | the loop applies each enabled rule in scope that has a value, in order |
| Alerts.PairsEvolveIndependently | internal/alerting/engine.go:134-155 | each pair of rule and node evolves as if its rule ran on its node alone |
| Alerts.SilentExactlyWhen | internal/alerting/engine.go:150-184 | no event is ever saved if and only if no run of true conditions lasts for the duration at a time when a save succeeds |
| Alerts.PairSilentExactlyWhen | internal/alerting/engine.go:134-184 | the same for a pair of rule and node among everything delivered to the engine |
| Alerts.SweepObservedExactlyBy | internal/alerting/engine.go:191-197 | the sweep is observed by exactly the enabled rules in scope on a sampled metric or the online bit, and with which value |
| Alerts.FalseObservationRestartsClock | internal/alerting/engine.go:162-177 | after an observation on which the condition fails a firing takes at least the duration |
| Alerts.SweepsKeepRuleSilent | internal/alerting/engine.go:186-212 | a rule whose condition fails on both sweep values saves nothing about a node swept at gaps below its duration, whatever else is delivered |
| Alerts.SweepSuppressesBusyAlert | internal/alerting/engine.go:196-197 | a busy node fires a 20-second rule without a sweep delivered in between and not with one |
| Alerts.OperatorsCompare | internal/alerting/engine.go:342-357 | the orders fail at their strict threshold, are each other's complements, and equality is both weak ones |
| Alerts.RecoverySides | internal/alerting/engine.go:359-370 | which side of the recovery threshold resolves an alert, for each operator |
| Alerts.RecoveredIsCalm | internal/alerting/engine.go:359-370 | with the recovery threshold on the quiet side, what has recovered does not hold |
| Alerts.PercentageMeans | internal/alerting/engine.go:296-301 | a share is the quotient in percent, nothing of nothing, and between 0 and 100 |
| Alerts.BusiestMeans | internal/alerting/engine.go:324-329 | the graphics value is the greatest utilization, at least zero |
| Alerts.ScopeExactly | internal/alerting/engine.go:267-275 | a node is in scope exactly if not excluded and named, itself or by group, where anything is named |
| Alerts.OfflineSweepAlerts | internal/alerting/engine.go:186-197 | a sweep that finds a node offline raises the offline alert, one that finds it online resolves it or stays silent |
| Limiter.EnrollmentLimiter.RetainAfter | internal/security/ratelimit.go:79-85 | the index scan drops exactly the leading times before the cutoff |
| Limiter.EnrollmentLimiter.Cleanup | internal/security/ratelimit.go:68-77 | all lists are pruned and idle addresses forgotten, in any order |
| Limiter.EnrollmentLimiter.AllowAttempt | internal/security/ratelimit.go:24-36 | the limiter is cleaned and answers from the cleaned state |
| Limiter.EnrollmentLimiter.Failure | internal/security/ratelimit.go:38-60 | the failure is recorded, locks and pauses are set, and an opening is reported |
| Limiter.EnrollmentLimiter.Success | internal/security/ratelimit.go:62-66 | only that address is forgotten |
| Limiter.RunTracks | internal/security/ratelimit.go:24-77 | after every history the pruned state agrees with the full history wherever it can still be asked |
| Limiter.AllowAgreesWithFullHistory | internal/security/ratelimit.go:24-36 | every answer and waiting time equals the one computed from the full unpruned history |
| Limiter.FailureAgreesWithFullHistory | internal/security/ratelimit.go:38-60 | the circuit breaker opens exactly when the full history calls for it |
| Limiter.OpeningsAreApart | internal/security/ratelimit.go:52-58 | the circuit breaker never opens twice within 15 minutes |
| Limiter.LockedExactlyWhen | internal/security/ratelimit.go:47-51 | an address is locked exactly while a fifth failure in 10 minutes, not followed by a success, is under 30 minutes old |
| Limiter.FiveFailuresLock | internal/security/ratelimit.go:47-51 | the fifth failure, not the fourth, locks an address for 30 minutes, a success lifts it, and other addresses go on |
| Limiter.HundredFailuresPause | internal/security/ratelimit.go:52-58 | the hundredth failure, not the ninety-ninth, pauses everybody for 15 minutes |
| Limiter.FailureCountsForTenMinutes | internal/security/ratelimit.go:68-85 | a failure counts for 10 minutes, its end included |
| Versions.ParseVersion | internal/updater/updater.go:243-277 | the loops accept exactly the texts of the specification and yield its numbers and identifiers |
| Versions.RenderedVersionParses | internal/updater/updater.go:243-277 | every well-formed version text, with or without leading "v" and build suffix, parses to its numbers and identifiers |
| Versions.ComputeNumericIdentifier | internal/updater/updater.go:279-290 | the scan finds a number exactly for digits in range |
| Versions.ComparePrerelease | internal/updater/updater.go:217-235 | the loop decides by the first differing identifier, then by length |
| Versions.NewerVersion | internal/updater/updater.go:200-236 | the comparison as a whole, including unparsable and development versions |
| Versions.NewerTransitive | internal/updater/updater.go:200-236 | "newer" is transitive over all strings |
| Versions.NewerAsymmetric | internal/updater/updater.go:200-236 | "newer" is irreflexive and asymmetric over all strings |
| Versions.UpdatesNeverRepeat | internal/updater/updater.go:83-97 | no chain of applied updates installs a version twice |
| Versions.ValueInjective | internal/updater/updater.go:279-290 | without leading zeros equal numbers have equal texts |
| Versions.SameLengthOrder | internal/updater/updater.go:233-233 | digit strings of one length order as text exactly as their numbers do |
| Versions.PartMatchesIdentifierIff | internal/updater/updater.go:222-233 | two identifiers are ordered as item 11.4 wants if and only if their order as text fits where it is used |
| Versions.OrderIsSemanticPrecedenceIff | internal/updater/updater.go:209-235 | without leading zeros the order is item 11 of Semantic Versioning 2.0.0 if and only if the cores decide or the first identifiers that differ fit as text |
| Versions.OrderIsSemanticPrecedence | internal/updater/updater.go:209-235 | on in-range identifiers without leading zeros the order is item 11 of Semantic Versioning 2.0.0 |
| Versions.OversizedMisordered | internal/updater/updater.go:222-233 | inputs beyond the integer range for which a version of lower precedence counts as newer: 10^20 - 1 over 10^20, and a number over an identifier with a letter |
| Versions.TextLessMeans | internal/updater/updater.go:233-233 | a text comes first exactly if it is a proper prefix or has the smaller character where the two part |
| Versions.ParsesExactlyWhen | internal/updater/updater.go:243-277 | a text is a version exactly if one to three numbers in range come before its dash and plus sign and no identifier is empty |
| Versions.SpacesAroundAreIgnored | internal/updater/updater.go:244-244 | spaces around a version do not matter |
| Scheduler.ProbeScheduler.SetConcurrency | internal/probe/scheduler.go:27-31 | the limit is clamped to 1 to 32 |
| Scheduler.ProbeScheduler.Sync | internal/probe/scheduler.go:33-53 | tasks become exactly the accepted ones, known ones keep their next time, new ones are due at once |
| Scheduler.ProbeScheduler.Tick | internal/probe/scheduler.go:55-84 | for any visiting order what is launched is due, fits the limit, and leaves nothing due unless the limit is reached |
| Scheduler.RunStaysSound | internal/probe/scheduler.go:27-84 | over every run no task has two runs under way, at most 32 are under way and scheduled keys equal task keys |
| Scheduler.TickRespectsLimit | internal/probe/scheduler.go:64-71 | a tick that launches stays within the limit in force and fills it if enough is due |
| Scheduler.StartsAreSpaced | internal/probe/scheduler.go:65-70 | successive starts of a task that stays listed are at least max(interval, 5) seconds apart |
| Scheduler.DueTaskStarts | internal/probe/scheduler.go:64-71 | in every reachable state a tick with room launches every due task and puts it off by exactly its interval, at least 5 seconds |
| Scheduler.NotDueNotStarted | internal/probe/scheduler.go:64-71 | a task that is not due, running or not listed is not launched and keeps its schedule |
| Scheduler.SyncSchedules | internal/probe/scheduler.go:33-53 | after a synchronization new tasks are due at once and known ones when they were |
| Scheduler.LastEntryCounts | internal/probe/scheduler.go:37-46 | of several entries for a task the last accepted one counts |
| AgentConfig.ConfigStore.Save | internal/store/sqlstore/nodes.go:350-367 | the loop succeeds exactly if one of five attempts is not overtaken, and then stores the version after all saves that came before |
| AgentConfig.Runtime.ApplyAck | internal/agent/runtime.go:295-311 | a configuration is taken over exactly if it is real and not older |
| AgentConfig.RunStaysSound | internal/store/sqlstore/nodes.go:350-367 | the protocol's invariant over every interleaving of save loops and acknowledgements |
| AgentConfig.SuccessesNumberVersions | internal/store/sqlstore/nodes.go:350-367 | each success advances the stored version by exactly one and no two share a version |
| AgentConfig.GivingUpMeansFiveOthers | internal/store/sqlstore/nodes.go:351-366 | a loop that gives up was overtaken by at least five saves |
| AgentConfig.AgentFollowsStored | internal/agent/runtime.go:299-301 | under any order of acknowledgements the agent's version never decreases and its configuration is the one stored under it |
| AgentConfig.AgentCatchesUp | internal/agent/runtime.go:299-301 | once an acknowledgement of the present row arrives the agent runs it, until a newer one does |
| AgentConfig.RowChangesBySave | internal/store/sqlstore/nodes.go:350-367 | over every run the row changes only by a save that was not overtaken, to that save's configuration |
| AgentConfig.UndisturbedSaveSucceeds | internal/store/sqlstore/nodes.go:350-367 | a save that reads and updates undisturbed succeeds at once |
| Rollup.RollupTableAt | internal/store/sqlstore/metrics.go:223-250 | each bucket with recent source rows gets their maximum, every other row stays |
| Rollup.HourThroughFiveMinutes | internal/store/sqlstore/metrics.go:217-220 | the maximum of an hour's 5-minute rows is the maximum of its raw rows |
| Rollup.HourlyRowIsRawMaximum | internal/store/sqlstore/metrics.go:213-250 | after any run of inserts and rollups each hour inside the raw window has a row exactly if it has raw rows, holding their maximum |
| Rollup.RollupIdempotent | internal/store/sqlstore/metrics.go:213-221 | a second rollup at the same instant changes nothing |
| Rollup.CutBucketKeepsMaximumIff | internal/store/sqlstore/metrics.go:217-232 | the bucket the cutoff falls into keeps its maximum exactly if it has no newer row or a newer row attains it |
| Rollup.CutBucketLosesPeak | internal/store/sqlstore/metrics.go:217-232 | a run of inserts and rollups in which the cut bucket loses its maximum |
| Rollup.BucketMeans | internal/store/sqlstore/metrics.go:223-232 | a bucket starts where the remainder of its rows' time is cut off |
| Downsample.Thin | internal/store/sqlstore/metrics.go:189-211 | the loop for whatever in-range positions the arithmetic yields, with its skip and its last-point fix-up |
| Downsample.ExactThinning | internal/store/sqlstore/metrics.go:196-209 | with exact arithmetic the output has exactly the wanted points at strictly increasing positions including first and last, and nothing is fixed up |
| Downsample.LowLastPositionIsFixed | internal/store/sqlstore/metrics.go:207-209 | if the last position comes out one too low the fix-up restores the last sample when timestamps differ |
| Downsample.EvenlySpread | internal/store/sqlstore/metrics.go:197-200 | the i-th exact position lies at i equal steps from first to last, rounded down |
| Downsample.NeighboursApart | internal/store/sqlstore/metrics.go:197-200 | neighbouring positions are one step apart, give or take one sample |
| Downsample.VisitedExactly | internal/store/sqlstore/metrics.go:199-206 | whatever positions come out, none is repeated right after itself and none is left out |

## Left out

- Restore.ApplyRestore: covers the swap with its rollback; validating and copying the staged files beforehand, quarantining them after a failure and deleting leftover copies are not modelled. The thirteen paths involved are assumed different and not nested.
- Archive.ExtractAndValidate: the destination directory is new and tells names apart by their characters; a zip that cannot be opened at all is not modelled.
- Container.EncryptContainer: read and write errors of the streams are not modelled.
- TrafficSystem.Api.AcceptSample: one undisturbed step, although tracker and hub are locked one after the other; what comes in between is the subject of TrafficRaces.dfy and TrafficWrites.dfy.
- TrafficSystem.Api.SaveTrafficCorrection: one undisturbed step, although row, policy and hub are written one after another; TrafficWrites.dfy takes the writes apart.
- TrafficSystem.Api.ClearTrafficCorrection: one undisturbed step, like the save.
- Enrollment.Store.Enroll: node metadata, defaults and the configuration row are reduced to what decides the outcome; whether a PIN matches its hash is left to the check step's choice.
- Alerts.HistoryDeterminesState: the rule is fixed for a trace, and rule durations and cooldowns are those that validation admits.
- Rollup.HourlyRowIsRawMaximum: covers the columns that take a maximum; averages through two tiers are not raw averages, and deletion of old rows is left out.
- The fallback to the current time when a period start is asked for the zero instant.
- Changing a node's reset day while a correction is active, and deleting a node from tracker and hub.
- Live subscriptions of the hub, which only add a bounded channel per browser.
- The strength of the cipher, the key derivation and the hash; only inverse laws are used.
- HTTP, JSON, sessions, notification delivery, metric collection, probes, themes and the web interface.
- Expiry reminders of the alert engine, which repeat the event mechanism without hysteresis.
