# cmctl: verified model

This project models the parts of cmctl, the cert-manager command line tool, that coordinate with a
shared cluster or compute something intricate, and proves what they promise.

- **Storage-version migration** (`ApiServer`, `Migrator`, `MigrationHistory`, `MigrationSafety`,
  `MigrationProgress`, `MigrationOutcomes`, `MigrationLimits`). The API server is a store of
  definitions and objects; every request takes a turn of a script that says what other clients do
  before it and whether it fails, so a statement about every script is a statement about every
  interleaving. The functions `Ensure`, `Discover`, `TryUpdate`, `MigrateItems`, `PatchOne`, `FullRun` say what each phase does to the
  world, the class `Migrator` runs the program's loops and is proved to do exactly that, and the
  theorems are about the histories of stores that runs produce. Main results: every transition during
  a run either loses no stored version or is a certified patch (`RunExplained`), so no object is ever
  persisted in an unrecorded version (`RunIsSafe`); objects that others delete or change meanwhile
  never stop a run (`FaultlessMigrateAll`); resuming after any run completes the migration
  (`ResumedRunConverges`).
- **Approve and deny** (`Approval`). Any number of runs race on one request with other writers.
- **Exit status** (`ExitCode`, `CheckApi`). The one-place channel, the signal goroutine, the exit
  function, the API check's poll loop, and their composition.
- **Install and uninstall** (`Manifests`, `Lifecycle`). The pass that marks definitions in a release,
  and what any sequence of commands does to the definitions of a cluster.
- **Version detection** (`VersionLabels`, `VersionChecker`), **key usages** (`KeyUsage`), **PEM
  splitting** (`Pem`) and the **ACME conversions** (`Acme`).

Where the code and its documentation part ways, the code is modelled and the difference is stated:

- The comparison with the snapshot cannot see the storage version move to a version the snapshot
  already records and back. `RunIsSafe` asks that the storage version, when it leaves the one of the
  snapshot, goes to a version the snapshot does not record. Without that a migration can be broken
  exactly if its snapshot records anything besides its storage version (`BreakableIff`); a run whose
  snapshots all record just that is safe whatever others do (`NarrowRunIsSafe`), and `WideCanBreak`
  breaks a whole run.
- Without `--skip-stored-version-check` a run can report success and leave `storedVersions` at a
  version other than its target: `CanSettleElsewhere`. It records the target for every selected
  definition, under the discipline above, exactly if each of them stored it at the second read
  (`SettlesOnTargetIff`). Without any discipline it records what that read found
  (`RunWritesSelected`), which with the flag is always the target (`SkippedRunWritesTarget`).
- The exit handler promises that a signal cancels the context and a second one ends the program. A
  code recorded before the first signal blocks the goroutine and disables both
  (`RecordedCodeMutesSignals`; the exact conditions are `FirstSignalCancelsIff` and
  `SecondSignalEndsIff`).
- The uninstall command promises never to delete definitions. It does exactly when a deployed release
  records one without the mark and the store refuses the updated release, which is only logged
  (`UninstallLosesCrdIff`, `RefusedUpdateLosesCrd`). A failure of Helm's own uninstall is not
  reported either (`HelmFailureIsNotReported`).

The API server, Helm, the YAML and PEM libraries, `apiutil` and the polling helper are not part of
this model; they appear as the functions and parameters that stand for their contracts. Clocks,
faults, map iteration orders and other clients' actions are parameters, so every result holds for all
of them.

## Model

| member | source | states |
|---|---|---|
| Migration.StorageVersionForCrd | pkg/upgrade/migrateapiversion/migrator.go:234-243 | the name of a version with the storage flag before which no other has it, or the empty string if none has |
| Migration.Migrator.Run | pkg/upgrade/migrateapiversion/migrator.go:71-119 | the program's run takes every world to the world, and returns the result, that the specification of a run gives for every script of other clients' actions and faults |
| Migration.Migrator.MigrateEach | pkg/upgrade/migrateapiversion/migrator.go:103-108 | the loop over the selected definitions stops at the first failure and otherwise rewrites each in turn |
| Migration.Migrator.EnsureCrdStorageVersionEquals | pkg/upgrade/migrateapiversion/migrator.go:121-141 | the preflight reads each definition once, stops at the first error or mismatch, and otherwise returns the snapshots in order |
| Migration.Migrator.DiscoverCrdsRequiringMigration | pkg/upgrade/migrateapiversion/migrator.go:143-161 | the second read keeps the definitions that record more than one version or one other than the target, and skips those that record none |
| Migration.Migrator.MigrateResourcesForCrd | pkg/upgrade/migrateapiversion/migrator.go:163-195 | one List, then every listed object in turn until a failure that is not absorbed |
| Migration.Migrator.RetryOnError | pkg/upgrade/migrateapiversion/migrator.go:175-185 | up to three attempts, ended by success, NotFound or Conflict |
| Migration.Migrator.PatchCrdStoredVersions | pkg/upgrade/migrateapiversion/migrator.go:200-231 | re-read, compare with the snapshot, compare-and-set of the status, definition by definition until the first failure |
| MigrationHistory.CoveredSurvives | pkg/upgrade/migrateapiversion/migrator.go:173-190 | along any history in which the storage version stays put, every live object remains encoded in it or listed and unchanged |
| MigrationHistory.SameRvSameCrd | pkg/upgrade/migrateapiversion/migrator.go:203-225 | an unchanged resourceVersion at the write means the definition is the one that was compared |
| MigrationHistory.GentleKeepsSafe | pkg/upgrade/migrateapiversion/migrator.go:197-199 | a transition that loses no stored version keeps every object's encoding recorded |
| MigrationSafety.PutItemSweeps | pkg/upgrade/migrateapiversion/migrator.go:173-190 | after an update answered by success, NotFound or Conflict the listed object is gone or encoded in the storage version; after any other answer nothing is lost |
| MigrationSafety.MigrateResourcesSweeps | pkg/upgrade/migrateapiversion/migrator.go:163-195 | if the loop returns nil and the storage version has not moved since the List, every live object of the definition is encoded in it, whatever other clients did and although NotFound and Conflict are absorbed |
| MigrationSafety.KeptAlong | pkg/upgrade/migrateapiversion/migrator.go:209-220 | along any history, drift of the storage version since a snapshot leaves a stored version the comparison will object to, and swept definitions stay swept |
| MigrationSafety.CheckedPatch | pkg/upgrade/migrateapiversion/migrator.go:209-225 | if the comparison passed and the resourceVersion still matches, the storage version has been constant since the snapshot and every live object is encoded in it |
| MigrationSafety.PatchOneExplained | pkg/upgrade/migrateapiversion/migrator.go:201-227 | a status write is a certified patch: constant storage version since the snapshot, all live objects in it, `storedVersions` set to exactly it |
| MigrationSafety.PatchAllExplained | pkg/upgrade/migrateapiversion/migrator.go:200-231 | the same for the whole list of definitions, repeated names included; success means a certified patch for each |
| MigrationSafety.RunExplained | pkg/upgrade/migrateapiversion/migrator.go:71-231 | every transition of the history of a run, its own and others', loses no stored version or is a certified patch for a selected definition; a successful migration has one for each |
| MigrationSafety.RunIsSafe | pkg/upgrade/migrateapiversion/migrator.go:71-231 | at every moment of every run, whatever fails and wherever it stops, each persisted object's encoding is among its definition's stored versions |
| MigrationProgress.TryUpdateCalls | pkg/upgrade/migrateapiversion/migrator.go:175-185 | between one and the allowed number of requests per object, and all of them unless the answer is success, NotFound or Conflict |
| MigrationProgress.MigrateItemsCalls | pkg/upgrade/migrateapiversion/migrator.go:173-190 | the exact requests of the loop: one to three updates per object in list order, three for an object that fails, none for the objects after it |
| MigrationProgress.FailedRewriteLeavesStatuses | pkg/upgrade/migrateapiversion/migrator.go:103-115 | a run that fails before all objects are rewritten sends no status update, and no definition loses a stored version during it |
| MigrationOutcomes.NeedsMigrationExact | pkg/upgrade/migrateapiversion/migrator.go:150-157 | a definition is selected unless it records nothing or the target alone |
| MigrationOutcomes.UnexpectedlyChangedExact | pkg/upgrade/migrateapiversion/migrator.go:210-220 | the comparison objects exactly if the storage version differs or an unrecorded version other than it has been added |
| MigrationOutcomes.FaultlessMigrateAll | pkg/upgrade/migrateapiversion/migrator.go:163-195 | if no request fails and the definitions exist, the rewrite phase succeeds whatever other clients do to the objects, with one List per definition and exactly one update per listed object |
| MigrationOutcomes.FaultlessRun | pkg/upgrade/migrateapiversion/migrator.go:270-285 | if no request fails and the definitions exist, only a definition that does not store the target, a change the comparison objects to, or a concurrent status write stops a run |
| MigrationOutcomes.RunChecksEveryName | pkg/upgrade/migrateapiversion/migrator.go:71-101 | in every interleaving, success means that each named definition was seen to store the target and was selected or, without the flag, seen to be done; nothing else is selected, and the result tells whether anything was |
| MigrationOutcomes.RefusedRunOnlyReads | pkg/upgrade/migrateapiversion/migrator.go:71-84 | the refusal means that some named definition was seen to store another version, and the run has only read definitions |
| MigrationProgress.QuietEnsure | pkg/upgrade/migrateapiversion/migrator.go:121-141 | in a quiet cluster the preflight passes exactly when every named definition exists and stores the target |
| MigrationProgress.QuietDiscover | pkg/upgrade/migrateapiversion/migrator.go:143-161 | in a quiet cluster exactly the named definitions in need of migration are selected |
| MigrationProgress.QuietMigrateAll | pkg/upgrade/migrateapiversion/migrator.go:103-108 | in a quiet cluster the rewrite succeeds, writes no definition, and leaves every live object of the selected definitions encoded in the target |
| MigrationProgress.QuietRunConverges | pkg/upgrade/migrateapiversion/migrator.go:71-119 | from any store, a quiet run that passes the preflight succeeds, returns true exactly if something needed migration or the check was skipped, and leaves every named definition with no stored version or the target alone; every live object of a migrated definition, and in a safe cluster of every named one, is encoded in the target |
| MigrationProgress.ResumedRunConverges | pkg/upgrade/migrateapiversion/migrator.go:71-161 | after any run whatsoever a quiet second run completes the migration, objects included, and a third returns (false, nil) with the store unchanged and no status write |
| MigrationLimits.NarrowRunIsSafe | pkg/upgrade/migrateapiversion/migrator.go:209-220 | if every selected snapshot records only its storage version, every moment of the run is safe with no assumption about other clients |
| MigrationLimits.BreakableIff | pkg/upgrade/migrateapiversion/migrator.go:163-231 | from a safe store and an up-to-date snapshot, some interleaving of the migration succeeds and leaves an object in an unrecorded version, exactly if the snapshot records a version besides its storage version |
| MigrationLimits.WideCanBreak | pkg/upgrade/migrateapiversion/migrator.go:209-227 | from every safe store in which a definition records another version, some interleaving ends in reported success with an object in an unrecorded version |
| MigrationLimits.RunWritesSelected | pkg/upgrade/migrateapiversion/migrator.go:200-231 | a successful run has, for every selected definition, a status write that records the storage version of the snapshot and nothing else, whatever other clients do |
| MigrationLimits.SettlesOnTargetIff | pkg/upgrade/migrateapiversion/migrator.go:66-70 | under the discipline the certified patches of a successful run record the target alone for every selected definition, exactly if every selected snapshot stores the target |
| MigrationLimits.SkippedRunWritesTarget | pkg/upgrade/migrateapiversion/migrator.go:121-141 | with the check skipped a successful run always records the target alone for every selected definition |
| MigrationLimits.CanSettleElsewhere | pkg/upgrade/migrateapiversion/migrator.go:84-98 | if the storage version moves between the two reads, the run succeeds with `storedVersions` set to that other version |
| Approval.SetConditionInForce | pkg/approve/approve.go:128-129 | setting a decision on an undecided request leaves exactly that decision in force |
| Approval.StepKeepsInv | pkg/deny/deny.go:114-136 | every step of every run and writer keeps the race invariant and never changes a decision in force |
| Approval.RaceIsSafe | pkg/convert/internal/apis/certmanager/types_certificaterequest.go:214-224 | in every interleaving Approved and Denied never hold together, at most one run succeeds, and while the request exists it is approved if that run was to approve and denied if it was to deny, with its reason and message |
| Approval.FirstDecisionStands | pkg/convert/internal/apis/certmanager/types_certificaterequest.go:214-224 | a decision once in force is never changed by later events |
| Approval.UndisturbedRunDecides | pkg/deny/deny.go:114-139 | an undisturbed approve run on an undecided request leaves it approved, a deny run leaves it denied |
| Approval.SetCertificateRequestCondition | pkg/approve/approve.go:128-129 | the first condition of the same type is replaced in its place, or the condition is appended; every other condition keeps its place |
| Approval.SuccessDecides | pkg/approve/approve.go:114-139 | the answer of a run for every state at its Get and at its UpdateStatus; success means the approve command approved or the deny command denied, and any other answered run leaves the request alone |
| Approval.RunCommand | pkg/approve/approve.go:114-139 | the command is a Fetch and a Write of the race, with other clients' events before each; its answer is the one above, and on success the request is decided as the command says |
| ExitCode.StepKeepsInv | internal/util/signal.go:52-80 | every step keeps: the channel holds the first offered code, and the goroutine is past its send only if its code is the one in the channel |
| ExitCode.ExitTakesFirstCode | internal/util/signal.go:70-79 | in every interleaving the exit function passes on exactly the first code offered, and none if there was none; zero is never offered, and without signals exactly the non-zero codes set are |
| ExitCode.GracefulOffersNoSignalCode | internal/util/signal.go:58-63 | under a graceful shutdown signals offer no code |
| ExitCode.CancelledExitsNonZero | internal/util/signal.go:58-68 | a cancellation by a signal seen before the exit call means exit status 128 + signal |
| ExitCode.SecondSignalPath | internal/util/signal.go:58-67 | an end before the exit call has status 130 and comes only after two signals, the first of which cancelled the context; under AlwaysErrCode its code was the first one accepted |
| ExitCode.InterruptedKeepsSignalCode | internal/util/signal.go:58-79 | after a cancellation nothing changes the outcome but a second signal |
| ExitCode.RecordedCodeMutesSignals | internal/util/signal.go:60-64 | a code recorded before the signal's own disables cancellation and the second-signal exit until the exit call |
| ExitCode.FirstSignalCancelsIff | internal/util/signal.go:58-64 | a first signal cancels the context exactly if no code was recorded before it or the shutdown is graceful |
| ExitCode.SecondSignalEndsIff | internal/util/signal.go:44-67 | a second signal ends the program with 130 exactly if no code was recorded before the first or the shutdown is graceful |
| ExitCode.BurstEndsIff | internal/util/signal.go:55-67 | the same condition if both signals arrive before the goroutine runs: the second one is not lost |
| ExitCode.FirstCodeSurvives | internal/util/exit.go:37-46 | a code recorded first is the exit status whatever is offered and whichever signals arrive afterwards |
| ExitCode.ExitHandler.SetExitCodeValue | internal/util/exit.go:37-46 | zero changes nothing; a non-zero code fills an empty channel and leaves a full one alone |
| ExitCode.ExitHandler.SetExitCode | internal/util/exit.go:25-34 | nil and cancellation change nothing; on an empty channel a deadline leaves 124 and anything else 1; a recorded code stays |
| ExitCode.ExitHandler.Exit | internal/util/signal.go:70-79 | the exit function reads the channel once and ends the process with what it finds |
| CheckApi.Run | pkg/check/api/api.go:106-145 | the loop ends at the first poll that succeeds, is late or finds the context cancelled; nil is returned exactly if that poll succeeded; on an empty channel a timeout with a waiting time leaves 124, another failure what its error says, a success nothing |
| CheckApi.BoundedChecks | pkg/check/api/api.go:111-129 | with a positive interval at most floor(wait / interval) + 2 checks are made |
| CheckApi.BoundIsMet | pkg/check/api/api.go:111-129 | checks that fail exactly on time are repeated as often as the bound says |
| CheckApi.EventuallyStops | pkg/check/api/api.go:111-129 | with a positive interval the loop has an end |
| CheckApi.TimeoutExits124 | main.go:53-70 | a timed out check with a positive waiting time ends the process with 124 although the fatal error handler offers 1 later and whichever signals arrive |
| CheckApi.FailureExitStatus | pkg/check/api/api.go:131-140 | with no code recorded before, a failing check ends the process with 124 after a timeout or for a deadline error, and with 1 for every other failure, whatever is offered later |
| CheckApi.PlainFailureExits1 | internal/util/exit.go:25-34 | a plain failure without a waiting time ends with 1 whatever is offered and whichever signals arrive later |
| CheckApi.SuccessExits0 | pkg/check/api/api.go:142-145 | a successful check ends with 0 |
| CheckApi.InterruptedExitsWithSignal | pkg/check/api/api.go:131-140 | an interrupted check ends with 128 + signal, or 130 on a second signal, whatever the command and the handler offer |
| Manifests.SortedKeys | pkg/uninstall/uninstall.go:240-241 | sorting the collected keys gives the numeric order, whatever order the map yields them in |
| Manifests.MarkManifests | pkg/uninstall/uninstall.go:195-237 | in every iteration order the pass over the split manifest fails exactly if some document is unreadable, and otherwise marks exactly the unmarked definitions |
| Manifests.JoinManifests | pkg/uninstall/uninstall.go:240-246 | the documents are written out in numeric order, each in its marked form |
| Manifests.AddCrdAnnotations | pkg/uninstall/uninstall.go:164-262 | the stored release after the pass, for every iteration order: rewritten only if a definition lacked the mark, untouched on every error |
| Manifests.PassGoesThroughIff | pkg/uninstall/uninstall.go:164-224 | the pass goes through exactly for a reachable cluster, a valid name and a deployed release whose documents parse and whose changed ones can be written back; a release that is not deployed is refused; it tells and changes exactly what it found |
| Manifests.MarkedDocument | pkg/uninstall/uninstall.go:203-224 | every definition ends up with the mark and its other annotations, every other document unchanged |
| Manifests.RewrittenIff | pkg/uninstall/uninstall.go:239-239 | the documents change exactly if some definition lacked the mark |
| Manifests.SecondPassIsIdle | pkg/uninstall/uninstall.go:208-210 | a second pass rewrites nothing |
| Lifecycle.HelmFailureIsNotReported | pkg/uninstall/uninstall.go:155-161 | an uninstall reported as successful has removed the release exactly if Helm completed |
| Lifecycle.UninstallLosesCrdIff | pkg/uninstall/uninstall.go:149-161 | an uninstall removes a definition exactly if it goes ahead, the release records it unmarked, and the updated release was refused |
| Lifecycle.RefusedUpdateLosesCrd | pkg/uninstall/uninstall.go:253-258 | one unmarked definition, a deployed release that records it and a refused update: the command succeeds and the definition is gone |
| Lifecycle.UninstallRemovesIff | pkg/uninstall/uninstall.go:149-161 | any other resource is removed exactly if the uninstall goes ahead, Helm gets to it, and the release records it unannotated |
| Lifecycle.DryRunChangesNothing | pkg/install/install.go:206-208 | a dry run of either command leaves the cluster alone, and an installation then succeeds exactly if the chart can be installed and rendered |
| Lifecycle.InstallSucceedsIff | pkg/install/install.go:154-270 | the exact condition under which an installation succeeds; then every rendered resource is present and the release records everything but the definitions |
| Lifecycle.FailedInstallLeaves | pkg/install/install.go:182-270 | what each failure leaves: nothing new before the creation, no release before Helm, and a failed release gone exactly if the command waited and the rollback was complete |
| Lifecycle.FilterCrdsExact | pkg/install/helm/resource.go:80-85 | the filter keeps exactly the definitions |
| Lifecycle.FilterCrdResources | pkg/install/helm/resource.go:46-55 | the loop is that filter, in order |
| Lifecycle.Target.FetchResources | pkg/install/helm/resource.go:58-77 | exactly the resources that exist in the cluster are detected |
| Lifecycle.Target.Install | pkg/install/install.go:154-270 | the command takes the cluster, at every point of failure, where the specification of an installation says; a dry run leaves it alone |
| Lifecycle.InstallKeepsCrds | pkg/install/install.go:139-153 | no installation, however it ends and including a rollback, removes a definition |
| Lifecycle.InstallOntoExistingChangesNothing | pkg/install/install.go:234-242 | if any definition of the chart exists, nothing changes and only a dry run succeeds |
| Lifecycle.InstalledCrdsOutliveRelease | pkg/install/install.go:139-153 | after a successful installation all definitions exist and even Helm's own uninstall of the release leaves them |
| Lifecycle.CrdsAreNeverRemoved | pkg/uninstall/uninstall.go:63-65 | over any sequence of installations and uninstallations, failing anywhere but at the release update, no definition is removed |
| Lifecycle.UninstallRelease | pkg/uninstall/uninstall.go:135-162 | the command is the pass, unless it is a dry run, followed by Helm's uninstall, for every iteration order; a dry run changes nothing |
| VersionLabels.MatcherExact | internal/versionchecker/fromlabels.go:23-23 | the matcher accepts exactly `v<digits>.<digits>.<digits>` and anything after it on one line |
| VersionLabels.ChartVersionIsLeftmost | internal/versionchecker/fromlabels.go:23-45 | extraction from a chart label is sound, complete and leftmost |
| VersionLabels.ChartLabelGivesVersion | internal/versionchecker/fromlabels.go:30-42 | a label made of a name and a version gives back the version if the name holds no earlier match |
| VersionLabels.LabelVersionExact | internal/versionchecker/fromlabels.go:25-45 | the version label as it is comes first, then the suffix after the leftmost match in the chart label, then that in the old chart label, then nothing |
| VersionLabels.ImageVersionExact | internal/versionchecker/fromservice.go:29-29 | an image yields a version exactly if it is the fixed prefix followed by that version |
| VersionChecker.LabelOfIsLast | internal/versionchecker/fromservice.go:55-62 | the recorded pod label is that of the last labelled running pod scanned |
| VersionChecker.FirstImageNonEmpty | internal/versionchecker/fromservice.go:64-70 | the recorded image version is that of the first matching container and is not empty |
| VersionChecker.ScanRefines | internal/versionchecker/fromservice.go:55-73 | the scan records the image of the first running pod with a matching container, the last label up to and including that pod, and nothing else |
| VersionChecker.OnlyRunningPodsCount | internal/versionchecker/fromservice.go:55-58 | pods that are not running do not exist for the scan |
| VersionChecker.SingleName | internal/versionchecker/versionchecker.go:105-114 | all sources come from one name: the old one exactly if the new one is missing in both versions |
| VersionChecker.FoundDefinitionRecords | internal/versionchecker/fromcrd.go:28-62 | a found definition adds its own label version under its source, then what its service and the scan of the pods add under theirs, and nothing else; the error is that of the first failed lookup |
| VersionChecker.ServiceRecords | internal/versionchecker/fromservice.go:31-74 | what a service adds: its label version, then the versions of the scan of the pods behind its selector |
| VersionChecker.SourceNames | internal/versionchecker/fromservice.go:46-69 | the four sources have distinct names, those they are reported by |
| VersionChecker.LookupErrors | internal/versionchecker/fromcrd.go:38-62 | a definition missing in both versions is reported as such, any other failure as it is, and nothing is recorded |
| VersionChecker.ExtractKeepsNoneEmpty | internal/versionchecker/fromcrd.go:28-62 | no extractor records an empty version |
| VersionChecker.FoldExact | internal/versionchecker/versionchecker.go:142-152 | for any values in any order the loop finds a version exactly if they are empty strings followed by nothing but it |
| VersionChecker.FoldWithoutEmpty | internal/versionchecker/versionchecker.go:142-152 | without empty strings the outcome does not depend on the order: agreement or conflict |
| VersionChecker.DeterminedReduces | internal/versionchecker/versionchecker.go:137-158 | without empty sources every iteration order gives the same answer: the version if all agree, a conflict if two differ, not detected without sources |
| VersionChecker.EmptySourceDecidesByOrder | internal/versionchecker/versionchecker.go:142-152 | with an empty source beside a version one order detects the version and the other reports a conflict |
| VersionChecker.Checker.Version | internal/versionchecker/versionchecker.go:105-131 | the old name is tried only after the new one was not found, the sources are reduced, and both errors are reported together |
| VersionChecker.Checker.ExtractVersionFromCrd | internal/versionchecker/fromcrd.go:28-62 | v1, then v1beta1, then not found; other errors end the lookup |
| VersionChecker.Checker.ExtractVersionFromService | internal/versionchecker/fromservice.go:31-74 | the service label, then the pods behind its selector |
| VersionChecker.Checker.ScanPods | internal/versionchecker/fromservice.go:55-73 | the nested loop with its early return is the scan |
| VersionChecker.Checker.DetermineVersion | internal/versionchecker/versionchecker.go:137-158 | for every iteration order the loop over the map is the fold over its values in that order |
| KeyUsage.ReversedIncreases | pkg/status/certificate/types.go:407-411 | after the reversal the emitted values are strictly increasing, for a table of any length |
| KeyUsage.GreedySum | pkg/status/certificate/types.go:395-406 | the emitted values sum up to the usage, cut off at 0 and 2^n - 1, for every integer |
| KeyUsage.GreedyEmitsBits | pkg/status/certificate/types.go:395-406 | below 2^n a value is emitted exactly if its bit is set |
| KeyUsage.NamedAreSetBits | pkg/status/certificate/types.go:395-411 | for every integer the values in the order they are named are strictly increasing and exactly the set bits of the clamped usage |
| KeyUsage.NameOfBit | pkg/status/certificate/types.go:377-387 | the value of each bit has the name that the standard gives the bit |
| KeyUsage.JoinConcat | pkg/status/certificate/types.go:412-412 | joining keeps every part in order with one separator between neighbours |
| KeyUsage.PrintsSetBits | pkg/status/certificate/types.go:395-413 | for every integer the names printed are, bit by bit, those of the set bits of the clamped usage |
| KeyUsage.LoopIsGreedy | pkg/status/certificate/types.go:398-406 | the loop with its early exit is the greedy decomposition on every table of powers of two |
| KeyUsage.TableOfNine | pkg/status/certificate/types.go:388-388 | the program's table is the table of nine powers of two |
| KeyUsage.Decompose | pkg/status/certificate/types.go:396-406 | the loop over a table emits what its specification says, for every table |
| KeyUsage.ReverseInPlace | pkg/status/certificate/types.go:408-411 | the swaps reverse the array in place |
| KeyUsage.KeyUsageToString | pkg/status/certificate/types.go:395-413 | the joined names, in increasing order, of exactly the bits that are set in the clamped usage |
| Pem.SplitIsCertificates | pkg/inspect/secret/util.go:194-213 | the result is exactly the certificate blocks, in order, encoded again; an error exactly if the encoder refuses one |
| Pem.SplitPems | pkg/inspect/secret/util.go:194-213 | the loop terminates on every input and returns that result |
| Pem.CertificatesExact | pkg/inspect/secret/util.go:201-203 | exactly the blocks of type CERTIFICATE are kept, in order |
| Pem.SplitIsIdempotent | pkg/inspect/secret/util.go:194-213 | splitting the concatenation of the result gives the result |
| Acme.ChallengeFields | pkg/convert/internal/apis/acme/v1alpha2/conversion.go:25-63 | every field arrives under its own name, the renamed one under its new one, and only the two known types are respelt, in both directions |
| Acme.OrderFields | pkg/convert/internal/apis/acme/v1alpha2/conversion.go:65-83 | the same for orders and their request |
| Acme.ListItems | pkg/convert/internal/apis/acme/v1alpha2/zz_generated.conversion.go:1512-1552 | every item of a list of challenges keeps its place, metadata and status |
| Acme.OrderListItems | pkg/convert/internal/apis/acme/v1alpha2/zz_generated.conversion.go:1648-1688 | the same for orders |
| Acme.ChallengeRoundTrip | pkg/convert/internal/apis/acme/v1alpha2/conversion.go:25-63 | v1alpha2 to internal and back is the identity exactly off the internal spellings of the type, and otherwise an idempotent respelling |
| Acme.InternalRoundTrip | pkg/convert/internal/apis/acme/v1alpha2/conversion.go:25-63 | internal to v1alpha2 and back is the identity exactly off the v1alpha2 spellings |
| Acme.OrderRoundTrip | pkg/convert/internal/apis/acme/v1alpha2/conversion.go:65-83 | orders survive in both directions, the renamed request included |
| Acme.ChallengeListRoundTrip | pkg/convert/internal/apis/acme/v1alpha2/zz_generated.conversion.go:1512-1552 | the same for lists of any length, with nil and empty kept apart |
| Acme.OrderListRoundTrip | pkg/convert/internal/apis/acme/v1alpha2/zz_generated.conversion.go:1648-1688 | order lists survive unchanged |
| Acme.ConvertDns01 | pkg/convert/internal/apis/acme/v1alpha2/zz_generated.conversion.go:532-608 | every field of the target is overwritten, whatever it held |
| Acme.ConvertSolver | pkg/convert/internal/apis/acme/v1alpha2/zz_generated.conversion.go:490-504 | the same for solvers, with an allocated nested target |
| Acme.ConvertIssuer | pkg/convert/internal/apis/acme/v1alpha2/zz_generated.conversion.go:994-1027 | the same for issuers, with the loop over the solvers |
| Acme.AutoConvertChallengeToInternal | pkg/convert/internal/apis/acme/v1alpha2/zz_generated.conversion.go:1554-1569 | the generated part keeps the target's old value in the renamed field and copies the type unmapped |
| Acme.ConvertChallengeToInternal | pkg/convert/internal/apis/acme/v1alpha2/conversion.go:25-43 | with the wrapper the result depends on the input alone |
| Acme.AutoConvertChallengeToOld | pkg/convert/internal/apis/acme/v1alpha2/zz_generated.conversion.go:1571-1586 | the generated part of the way back, with the same gap |
| Acme.ConvertChallengeToOld | pkg/convert/internal/apis/acme/v1alpha2/conversion.go:45-63 | the wrapper of the way back closes it |
| Acme.ConvertChallengeV1 | pkg/convert/internal/apis/acme/v1/zz_generated.conversion.go:1555-1570 | the v1 conversion writes every field |
| Acme.DetourThroughV1 | pkg/convert/internal/apis/acme/v1/zz_generated.conversion.go:1555-1597 | for challenges a detour through v1 gives the same result as going back directly |
| Acme.ChallengeListDetourThroughV1 | pkg/convert/internal/apis/acme/v1/zz_generated.conversion.go:1513-1548 | the same for lists of challenges: unchanged exactly if no item is spelt the internal way, nil and empty apart |
| Acme.ConvertOrderV1 | pkg/convert/internal/apis/acme/v1/zz_generated.conversion.go:1701-1714 | the v1 conversion of orders writes every field |
| Acme.OrderDetourThroughV1 | pkg/convert/internal/apis/acme/v1/zz_generated.conversion.go:1701-1733 | the detour leaves an order unchanged |
| Acme.ConvertChallengeListV1 | pkg/convert/internal/apis/acme/v1/zz_generated.conversion.go:1513-1527 | nil stays nil, and every challenge is converted into its own place |
| Acme.ConvertOrderListV1 | pkg/convert/internal/apis/acme/v1/zz_generated.conversion.go:1659-1673 | the same for orders |
| Acme.OrderListDetourThroughV1 | pkg/convert/internal/apis/acme/v1/zz_generated.conversion.go:1659-1694 | the detour leaves a list of orders unchanged, nil and empty apart |
| Acme.AutoConvertOrderToInternal | pkg/convert/internal/apis/acme/v1alpha2/zz_generated.conversion.go:1690-1702 | the generated part keeps the target's old request |
| Acme.ConvertOrderToInternal | pkg/convert/internal/apis/acme/v1alpha2/conversion.go:65-73 | the wrapper fills it, so the result depends on the input alone |
| Acme.AutoConvertOrderToOld | pkg/convert/internal/apis/acme/v1alpha2/zz_generated.conversion.go:1704-1716 | the generated part of the way back, with the same gap |
| Acme.ConvertOrderToOld | pkg/convert/internal/apis/acme/v1alpha2/conversion.go:75-83 | the wrapper of the way back closes it |
| Acme.ConvertChallengeListToInternal | pkg/convert/internal/apis/acme/v1alpha2/zz_generated.conversion.go:1512-1526 | nil stays nil, and every item is converted into its own place |
| Acme.ConvertChallengeListToOld | pkg/convert/internal/apis/acme/v1alpha2/zz_generated.conversion.go:1533-1547 | the same on the way back |
| Acme.ConvertOrderListToInternal | pkg/convert/internal/apis/acme/v1alpha2/zz_generated.conversion.go:1648-1662 | the same for orders |
| Acme.ConvertOrderListToOld | pkg/convert/internal/apis/acme/v1alpha2/zz_generated.conversion.go:1669-1683 | the same for orders on the way back |

## Left out

- ApiServer.Apply: other clients do not delete or re-create definitions and do not remove entries of `storedVersions`; an object's name is its position in the store; a write that changes nothing still advances the resourceVersion.
- MigrationSafety.RunIsSafe: holds under the discipline on other clients described above; `MigrationLimits.WideCanBreak` shows it is needed.
- Approval.RaceIsSafe: a deleted request is not re-created under the same name; transition times of conditions are not modelled.
- ExitCode.ExitTakesFirstCode: exit codes are not reduced modulo 256, as the operating system may do.
- CheckApi.Run: `wait.PollUntilContextCancel` is the loop written out; that time passes is the precondition that some poll ends after the waiting time, which `EventuallyStops` derives from a positive interval.
- Lifecycle.UninstallLosesCrdIff: Helm also keeps documents whose policy equals `keep` up to case and surrounding blanks; here it must be equal.
- Lifecycle.Target.FetchResources: the fetched object is not stored back into the list entry; a failing lookup is one of the points where `RunInstall` stops.
- Manifests.AddCrdAnnotations: the text of documents, their splitting and the YAML round trip are contracts; a document is its head, annotations, the rest of its body, and whether it can be written back.
- VersionLabels.MatcherExact: strings are sequences of characters; invalid UTF-8 is not modelled.
- Acme.ConvertDns01: the provider structs copied field by field without renames are opaque; type metadata is set by the scheme and not by the conversions.
- The v1alpha3 and v1beta1 conversions repeat the ones modelled here.
- Certificate status beyond key usages, secret inspection beyond PEM splitting, renew, create, completion and all flag handling.
- Log output, durations and progress messages.
