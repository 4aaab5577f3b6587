# Verified models of the RHOAI end-to-end tooling

The tooling drives a cluster through `oc`: it installs operators, waits for OLM, sweeps what blocks it, reserves shared
clusters, and launches test runs. Between the calls sit decision engines with state, budgets, clocks and set algebra.
This project models those engines and proves what they keep over every answer a cluster may give. Calls to the cluster
are either steps of an explicit state or arbitrary answers; `dafny verify dfyconfig.toml` checks everything.

| modules | what they model |
|---|---|
| `BundleUnpackTrace`, `BundleUnpackLaws`, `BundleUnpackDuties`, `BundleUnpack` | the watchdog that waits for OLM to unpack a bundle: the step each history calls for, laws over all lawful histories, what is due after which readings, and the loop with its counters, timers and closures, proved to produce only lawful histories |
| `ClusterLock`, `IdleWait`, `LockProtocol` | the single-flight lock on external clusters: the listing with its memos, the wait, and the protocol over all interleavings |
| `Kubeconfig`, `SecretName` | context choice, temporary files of an upload, and the name of the Secret |
| `ServiceMesh`, `Rhcl`, `JobSweep` | the reconcilers that sweep subscriptions, CSVs, InstallPlans, OperatorGroups and Jobs |
| `MergePatch`, `YamlBlocks`, `DscBuilders`, `DscPolicy` | DataScienceCluster planning: YAML printer against JSON patch builder, and the three passes of a preparation |
| `ManifestPatch`, `ManifestReading`, `SnapshotOverlay`, `PullSecret` | edits that must be lossless, idempotent or confined: annotations in a manifest, snapshot images, registry credentials |
| `ShellEnv`, `KeywordExpr`, `PytestSkip`, `LaunchLadder` | launching tests: a shell environment file, `-k` expressions, the ladder of launches on one time budget |
| `Basics`, `Ordering` | strings, lines and sorting |

## Where the code differs from what it announces

Each of these is a proved statement about the model; the code is modelled as it is.

- The watchdog may return success although the only reading of the CSV said that none is resolved
  (`BundleUnpackLaws.SuccessWithoutCsv`), after announcing that it will wait for one: a success has seen a resolved CSV
  exactly if it was given before the loop (`BundleUnpackLaws.SuccessSawCsvIff`). Without a manifest a recovery that
  deletes nothing is not counted, so the exact law for kicks and recycles is stated for runs with a manifest.
- When the first InstallPlan listing of a Service Mesh sweep fails, nothing is protected
  (`ServiceMesh.FailedListingProtectsNothing`, `ServiceMesh.InFlightSelectedIff`). When the CSV listing of the repair
  fails, healthy subscriptions are deleted and applied afresh (`ServiceMesh.HealthyIsRecreated`, `ServiceMesh.StaysIff`).
  And a call may undo the upgrade that the one before was making room for (`ServiceMesh.UpgradeIsUndone`): one more call
  is idle exactly if no CSV went from under a complete subscription (`ServiceMesh.NextCallIdleIff`).
- A listing of PipelineRuns that succeeds without decoding counts as empty: it lets whoever asks into the cluster and
  deletes the Secret of a holder (`LockProtocol.UndecodedReplies`). Exclusion by source holds exactly apart from that
  (`LockProtocol.SourceCheckIff`). A blank namespace is answered the same way
  (`ClusterLock.BlankNamespaceListsNobody`).
- A Secret that cannot be read counts as having no lock key, so a run on the same API server enters beside the one inside
  (`LockProtocol.UnreadSecretAdmitsTwo`, `LockProtocol.KeyCheckIff`).
- Deleting the Secret for a run that still holds lets a second run in beside it, unless the run carries its lock key as
  an annotation (`LockProtocol.DeletionForHolderAdmitsTwo`); mutual exclusion on keys is proved for steps that avoid
  this. Two started runs that wait for the same cluster block each other (`LockProtocol.WaitersBlockEachOther`).
- A launch gets no time limit at all exactly when the clock passes the end of the budget between the check and the
  grant (`LaunchLadder.Runner.RunSingle`).
- A temporary kubeconfig can survive only when dumping YAML fails with an error other than AppError or OSError.
- The `-k` merge tests for text, not for conjuncts, and can drop a fragment (`PytestSkip.SubstringTestDropsFragment`);
  it does not parenthesise the fragment either, so that only its first alternative is conjoined
  (`PytestSkip.ConjoinedTextSelects`, `PytestSkip.OrFragmentEscapes`). `PytestSkip.MergeSelectsBothIff` says when a merge
  is right.
- A probe of the CRD that fails is not remembered, and the AI-gateway question is then asked again; if only the second
  probe succeeds and finds the field, models as a service is on in no place (`DscBuilders.MaasLostIff`).
- `llamastackoperator` is stale even when it is managed, and ends off whenever the last stale pass settles it. One read
  that fails leaves a stale component Managed (`DscPolicy.EndsManagedIff`), and a resource that is not seen skips a whole
  pass without raising the error that the fallback waits for (`DscPolicy.Cluster.BatchEnsureManaged`).
- Job sweeps count a Job whether or not it could be deleted (`JobSweep.Marketplace.Sweep`, `JobSweep.RefusalsUpset`).
- One unanswered read restarts an RHCL subscription that is where it should be (`Rhcl.SettledIsStartedOver`,
  `Rhcl.SettledStaysIff`), and an unanswered InstallPlan listing leaves plans that block (`Rhcl.SurvivorsPinTargetIff`).
- A failed OperatorGroup listing adds a second group beside a foreign one
  (`Rhcl.KuadrantSystem.ReconcileOperatorGroups`).
- Without an `oc` binary no context is seen to be admin, and the no-admin error is raised beside one that is
  (`Kubeconfig.Workspace.ResolveExternalKubeconfigContext`).
- Patching a manifest twice differs from once for a document that has no timeout annotation and another retry value
  above its metadata (`ManifestPatch.PatchTwice`, `ManifestPatch.UnsettledManifest`); an annotation without a value
  swallows the next line and may glue two documents together (`ManifestPatch.EmptyValueJoinsDocuments`).
- An image with both tag and digest is filed under the tagged name and misses pinned operands
  (`SnapshotOverlay.DigestMeetsSnapshot`).
- The default Secret name can end in a dash (`SecretName.NameIsLabelIff`).

## Model

| member | source | states |
|---|---|---|
| `BundleUnpack.Watchdog.WaitSubscriptionBundleUnpacked` | integration-tests/rhoai-e2e/install/install_and_verify.py:2046-2324 | For every behaviour of the cluster the wait ends; every act was due when it was done, so that what is due is done; it returns True, returns False or raises exactly when the readings at its end say so; each counter stays within its non-negative limit, with a manifest kicks number exactly the three counters together and operator recycles one less than the stall recoveries, without one there are no kicks; and loop bodies are bounded by the time to the deadline |
| `BundleUnpack.Watchdog.Run` | integration-tests/rhoai-e2e/install/install_and_verify.py:2046-2083 | A freshly built watchdog produces a lawful history and the outcome that history calls for |
| `BundleUnpack.Watchdog.constructor` | integration-tests/rhoai-e2e/install/install_and_verify.py:2083-2090 | Counters start at zero and timers unset, in agreement with the empty history |
| `BundleUnpack.Watchdog.Perform` | integration-tests/rhoai-e2e/install/install_and_verify.py:2046-2324 | Each step taken is the one the history calls for; time never runs backwards and a sleep lasts its length |
| `BundleUnpack.Watchdog.RecoverAfterUnpackFailure` | integration-tests/rhoai-e2e/install/install_and_verify.py:2092-2125 | A recovery happens only outside diagnostic mode, for a recoverable text, with budget left; with a manifest it is completed by a kick and counts, without one it counts exactly when a Job was deleted; the three timers are cleared exactly when it counts |
| `BundleUnpack.Watchdog.TryRecover` | integration-tests/rhoai-e2e/install/install_and_verify.py:2127-2136 | The failure counter grows by one exactly with an answered failure recovery |
| `BundleUnpack.Watchdog.TryStallRecover` | integration-tests/rhoai-e2e/install/install_and_verify.py:2138-2147 | The stall counter grows by one exactly with an answered stall recovery |
| `BundleUnpack.Watchdog.KickSubscription` | integration-tests/rhoai-e2e/install/install_and_verify.py:1928-1954 | Applying the manifest is one kick in the history; a failing apply ends the run |
| `BundleUnpack.Watchdog.Prelude` | integration-tests/rhoai-e2e/install/install_and_verify.py:2055-2179 | Before the loop a run either concludes as the rules say or stands in front of the first loop head |
| `BundleUnpack.Watchdog.ScanJobs` | integration-tests/rhoai-e2e/install/install_and_verify.py:2187-2206 | Jobs are looked at in listing order; the first churning one that can be recovered from ends the scan, and without one the Jobs are counted |
| `BundleUnpack.Watchdog.KickForMissingJobs` | integration-tests/rhoai-e2e/install/install_and_verify.py:2218-2237 | A no-Job kick that is due is counted and carried out, clears the timers, and is followed by the long sleep; a failing apply ends the run |
| `BundleUnpack.Watchdog.CheckJobs` | integration-tests/rhoai-e2e/install/install_and_verify.py:2207-2251 | The listing part of a loop body: an unanswered listing only sleeps, empty listings start the timer, lead to a kick once it is old enough and budget is left, or end the wait once the kicks are used up, and any Job stops the timer |
| `BundleUnpack.Watchdog.CheckStandstill` | integration-tests/rhoai-e2e/install/install_and_verify.py:2252-2293 | An unchanged lastUpdated starts the timer and, once old enough, leads to a stall recovery or, in diagnostic mode, to a report |
| `BundleUnpack.Watchdog.EndOfRound` | integration-tests/rhoai-e2e/install/install_and_verify.py:2294-2320 | A loop body ends by success after an idle and a clean reading, by a failure recovery, by giving up, or by a sleep of ten seconds |
| `BundleUnpack.Watchdog.Round` | integration-tests/rhoai-e2e/install/install_and_verify.py:2186-2320 | A loop body that does not return ends at the next loop head at least ten seconds later |
| `BundleUnpackLaws.RecoveryIsEarned` | integration-tests/rhoai-e2e/install/install_and_verify.py:2100-2147 | Every recovery of every run had budget left; completed Jobs are purged exactly for stalls, the operator is recycled exactly from the second counted stall on |
| `BundleUnpackLaws.KickIsEarned` | integration-tests/rhoai-e2e/install/install_and_verify.py:2116-2125 | A kick needs a manifest and follows a recovery of the same cause, or an empty listing, an old enough timer and a kick left |
| `BundleUnpackLaws.BudgetsHold` | integration-tests/rhoai-e2e/install/install_and_verify.py:2127-2147 | On every run each counter is at most its limit, or zero for a negative limit |
| `BundleUnpackLaws.KicksAreCounted` | integration-tests/rhoai-e2e/install/install_and_verify.py:2116-2124 | On every run with a manifest kicks equal the sum of the three counters (plus the one whose apply failed); without one there are none |
| `BundleUnpackLaws.OperatorRecyclesFollowStalls` | integration-tests/rhoai-e2e/install/install_and_verify.py:2108-2115 | With a manifest operator recycles number max(0, stall recoveries - 1) |
| `BundleUnpackLaws.ChurnIsRecoverable` | integration-tests/rhoai-e2e/install/install_and_verify.py:959-967 | The text passed on for pod churn is recoverable whatever surrounds it |
| `BundleUnpackLaws.StallIsRecoverable` | integration-tests/rhoai-e2e/install/install_and_verify.py:959-967 | The text passed on for a standstill is recoverable whatever surrounds it |
| `BundleUnpackLaws.TimersStartAfterKicks` | integration-tests/rhoai-e2e/install/install_and_verify.py:2121-2123 | On every run both timers, when set, were set after the latest kick |
| `BundleUnpackLaws.EmptySinceMeansNoJob` | integration-tests/rhoai-e2e/install/install_and_verify.py:2215-2251 | While the no-Job timer runs, no later listing has shown a Job and nothing was kicked |
| `BundleUnpackLaws.StillSinceMeansNoChange` | integration-tests/rhoai-e2e/install/install_and_verify.py:2252-2293 | While the stall timer runs, every later reading showed the same lastUpdated and nothing was kicked |
| `BundleUnpackLaws.NoJobKickCoolsDown` | integration-tests/rhoai-e2e/install/install_and_verify.py:2215-2237 | Every no-Job kick comes at least no_job_kick_sec after the latest kick of any kind and after that long without any Job seen |
| `BundleUnpackLaws.StallRecoveryCoolsDown` | integration-tests/rhoai-e2e/install/install_and_verify.py:2253-2277 | Every stall recovery follows churn just observed or comes at least stall_sec after the latest kick and after that long with lastUpdated unchanged |
| `BundleUnpackLaws.SleepsAreLong` | integration-tests/rhoai-e2e/install/install_and_verify.py:2202-2320 | Every sleep lasts at least ten seconds |
| `BundleUnpackLaws.HeadsFollowSleeps` | integration-tests/rhoai-e2e/install/install_and_verify.py:2185-2320 | Every loop head but the first directly follows a sleep |
| `BundleUnpackLaws.RoundsTakeTime` | integration-tests/rhoai-e2e/install/install_and_verify.py:2185-2320 | n loop bodies take at least 10(n-1) seconds |
| `BundleUnpackLaws.RoundsAreBounded` | integration-tests/rhoai-e2e/install/install_and_verify.py:2185-2320 | Loop bodies number at most one per started ten seconds before the deadline |
| `BundleUnpackLaws.SuccessNeedsACleanReading` | integration-tests/rhoai-e2e/install/install_and_verify.py:2160-2175 | Success in the loop follows a not-in-progress and a no-failure reading; before the loop also a resolved CSV and no pending state |
| `BundleUnpackLaws.FailureHasAReason` | integration-tests/rhoai-e2e/install/install_and_verify.py:2149-2324 | A run that returns False met one of the listed reasons |
| `BundleUnpackLaws.DiagnosticRunsOnlyRead` | integration-tests/rhoai-e2e/install/install_and_verify.py:2069-2083 | No run in diagnostic mode recovers or kicks; the annotation is its only write |
| `BundleUnpackLaws.SuccessSawCsvIff` | integration-tests/rhoai-e2e/install/install_and_verify.py:2160-2175 | Of every run: a success was given with a resolved CSV seen if and only if it was given before the polling loop |
| `BundleUnpackLaws.SuccessWithoutCsv` | integration-tests/rhoai-e2e/install/install_and_verify.py:2294-2307 | Such a run without any: the wait announced at 2161-2179 is not kept |
| `BundleUnpackDuties.StepIsDue` | integration-tests/rhoai-e2e/install/install_and_verify.py:2046-2324 | Whatever follows a lawful history is what the readings at its end demand: churn or an old enough standstill with budget left a stall recovery, a recoverable failure with budget left a failure recovery, a recovery its kick, a long enough absence of Jobs with a manifest and a kick left a kick, every listed Job a look, and so on for every act |
| `BundleUnpackDuties.LawfulIsDutiful` | integration-tests/rhoai-e2e/install/install_and_verify.py:2046-2324 | So every act of a lawful history was due |
| `BundleUnpackDuties.EndsIff` | integration-tests/rhoai-e2e/install/install_and_verify.py:2046-2324 | The exact readings on which the run returns True, returns False, or ends in a failing apply |
| `BundleUnpackDuties.RecoverableIff` | integration-tests/rhoai-e2e/install/install_and_verify.py:959-969 | A failure is worth recovering from if and only if one of four words occurs in it, in upper or lower case |
| `BundleUnpackDuties.SpentIsUsed` | integration-tests/rhoai-e2e/install/install_and_verify.py:2092-2147 | What counts against a budget are the kicks of that cause, or without a manifest the recoveries that removed a Job |
| `BundleUnpackDuties.EmptyElapsedIff` | integration-tests/rhoai-e2e/install/install_and_verify.py:2213-2225 | The no-Job timer is old enough if and only if the clock was read after an empty listing that long ago, and no Job was seen and nothing started over since |
| `BundleUnpackDuties.StillElapsedIff` | integration-tests/rhoai-e2e/install/install_and_verify.py:2252-2277 | The stall timer is old enough if and only if the clock was read that long ago while the stamp had been repeated, and it held, nothing started over and nothing was reported since |
| `BundleUnpackDuties.SeenIffShownBefore` | integration-tests/rhoai-e2e/install/install_and_verify.py:2252-2291 | A stamp is compared with the latest reading before it, unless something started over in between |
| `BundleUnpackDuties.UnscannedIsRest` | integration-tests/rhoai-e2e/install/install_and_verify.py:2187-2206 | During a scan the Jobs looked at and those still to come make up the listing |
| `ClusterLock.ActiveNamesExact` | integration-tests/rhoai-e2e/k8s/external_kubeconfig.py:1056-1131 | The list deciding over admission is missing exactly for an unanswered call, empty for a reply that cannot be decoded, and else sorted with exactly the names of the other runs that hold and match |
| `ClusterLock.ActiveNamesTell` | integration-tests/rhoai-e2e/k8s/external_kubeconfig.py:1056-1131 | Nobody without a Secret or a namespace, nothing for an unanswered call, else in order exactly the names of the listed runs that are in use and share the cluster, all read off their fields |
| `ClusterLock.HoldsIff` | integration-tests/rhoai-e2e/k8s/external_kubeconfig.py:949-981 | A run holds a cluster if and only if it has children and no completion time, and its reason is none of four and speaks of no cancellation and no stopping |
| `ClusterLock.MatchesIffShares` | integration-tests/rhoai-e2e/k8s/external_kubeconfig.py:1010-1053 | A run matches if and only if it names the same source, or the key or the id read for that source is found on it or read under its own source, or its Secret is named after the id |
| `ClusterLock.BlankNamespaceListsNobody` | integration-tests/rhoai-e2e/k8s/external_kubeconfig.py:1056-1059 | With a blank namespace the list is empty as after a reply that cannot be decoded, whatever the API would say |
| `ClusterLock.KeysMatchBothWays` | integration-tests/rhoai-e2e/k8s/external_kubeconfig.py:1010-1053 | Two external sources with equal non-empty lock keys match each other whichever asks |
| `ClusterLock.FieldCache.Field` | integration-tests/rhoai-e2e/k8s/external_kubeconfig.py:998-1008 | A memo lookup answers as the resolver does and keeps the memo truthful |
| `ClusterLock.MatchesCached` | integration-tests/rhoai-e2e/k8s/external_kubeconfig.py:1010-1053 | Matching through the two memos equals matching with resolvers asked afresh |
| `ClusterLock.ListActivePipelineRuns` | integration-tests/rhoai-e2e/k8s/external_kubeconfig.py:1056-1131 | Whatever namespace, reply and Secret reads: the answer is what it has to be in the fields of the runs, and the one computed without memos |
| `IdleWait.Waiter.WaitForExternalClusterIdle` | integration-tests/rhoai-e2e/k8s/external_kubeconfig.py:1134-1206 | A run is admitted only without external source, by force, or after a listing that was answered and named nobody; the error is decided by the last listing; a time-out comes no earlier than the time limit; polls are bounded by limit and interval |
| `LockProtocol.RivalsListed` | integration-tests/rhoai-e2e/k8s/external_kubeconfig.py:1077-1131 | A whole listing is empty if and only if no other run holds and is recognised on the cluster, under any answers of the Secrets |
| `LockProtocol.AdmittedIff` | integration-tests/rhoai-e2e/k8s/external_kubeconfig.py:1166-1180 | A check lets a run in if and only if its listing came back whole and shows no rival, or could not be decoded |
| `LockProtocol.SecretDeletedIff` | integration-tests/rhoai-e2e/k8s/external_kubeconfig.py:1294-1326 | A Secret is deleted if and only if the listing came back whole and shows no other run on its cluster, or could not be decoded, or the name stands for no external cluster |
| `LockProtocol.UndecodedReplies` | integration-tests/rhoai-e2e/k8s/external_kubeconfig.py:1066-1074 | What an undecodable reply does: two runs of one source are inside, and the Secret they use is deleted |
| `LockProtocol.UnansweredChangesNothing` | integration-tests/rhoai-e2e/k8s/external_kubeconfig.py:1064-1065 | A call that is not answered lets nobody in and deletes no Secret of an external cluster |
| `LockProtocol.SourceCheckIff` | integration-tests/rhoai-e2e/k8s/external_kubeconfig.py:1010-1053 | A check keeps the exclusion by source if and only if its reply could be decoded or no run of that source is inside; what the Secrets answer does not matter |
| `LockProtocol.SourceExclusionKept` | integration-tests/rhoai-e2e/k8s/external_kubeconfig.py:1010-1053 | Every step but an undecoded check keeps the exclusion of runs with one source |
| `LockProtocol.SourceMutualExclusion` | integration-tests/rhoai-e2e/k8s/external_kubeconfig.py:1134-1206 | Over every interleaving in which no check is answered by an undecodable reply, two admitted runs that still hold never share a CLUSTER_SOURCE |
| `LockProtocol.SecretOfHolderSurvives` | integration-tests/rhoai-e2e/k8s/external_kubeconfig.py:1294-1326 | A decoded deletion that goes through had a whole listing, and no other run holding that source or matching it |
| `LockProtocol.MatchesIffMeets` | integration-tests/rhoai-e2e/k8s/external_kubeconfig.py:1022-1035 | Where neither source nor labels connect two runs, they match if and only if the key read for one is found on the other |
| `LockProtocol.KeyCheckIff` | integration-tests/rhoai-e2e/k8s/external_kubeconfig.py:1010-1074 | A check keeps the exclusion by key if and only if the call was not answered, or its listing shows a rival, or nobody inside has the same key and, should the reply not decode, the same source |
| `LockProtocol.HinderedIffMet` | integration-tests/rhoai-e2e/k8s/external_kubeconfig.py:1010-1053 | Where only keys can connect the runs, a run is hindered if and only if the key read for it was found on some holder |
| `LockProtocol.KeyExclusionKept` | integration-tests/rhoai-e2e/k8s/external_kubeconfig.py:1010-1053 | Every considerate step and legible check keeps the exclusion of runs with one lock key |
| `LockProtocol.KeyMutualExclusion` | integration-tests/rhoai-e2e/k8s/external_kubeconfig.py:1134-1206 | Over every interleaving of considerate steps and legible checks two admitted runs that still hold never share a source or a non-empty lock key |
| `LockProtocol.UnreadSecretAdmitsTwo` | integration-tests/rhoai-e2e/k8s/external_kubeconfig.py:727-751 | Why checks have to be legible: when the Secret of the run inside cannot be read, a run on the same API server enters beside it |
| `LockProtocol.NewcomerHasFreshKey` | integration-tests/rhoai-e2e/k8s/external_kubeconfig.py:922-946 | A run let in by a legible check has a key that no run inside has |
| `LockProtocol.WaitersBlockEachOther` | integration-tests/rhoai-e2e/k8s/external_kubeconfig.py:970-981 | Two started runs with one source keep each other out while replies can be decoded: waiting counts as holding |
| `LockProtocol.RunningHolds` | integration-tests/rhoai-e2e/k8s/external_kubeconfig.py:949-981 | A started run with reason Running holds the cluster |
| `LockProtocol.DeletionForHolderAdmitsTwo` | integration-tests/rhoai-e2e/k8s/external_kubeconfig.py:1294-1326 | Why the condition is needed: the clean-up of a run that still holds deletes its Secret, and a second run on the same API server enters beside it |
| `Kubeconfig.Rank` | integration-tests/rhoai-e2e/k8s/external_kubeconfig.py:430-502 | Inserting into the ranking loses and invents no candidate |
| `Kubeconfig.PrecedesIsOrder` | integration-tests/rhoai-e2e/k8s/external_kubeconfig.py:469-469 | The sort key (score descending, then name) is a total order |
| `Kubeconfig.RankKeepsOrder` | integration-tests/rhoai-e2e/k8s/external_kubeconfig.py:430-502 | Insertion keeps the list ranked |
| `Kubeconfig.ScoreIs` | integration-tests/rhoai-e2e/k8s/external_kubeconfig.py:377-467 | The points of a context by what its name and its user say, its certificate, and whether it is current |
| `Kubeconfig.HtpasswdAdminComesFirst` | integration-tests/rhoai-e2e/k8s/external_kubeconfig.py:377-386 | A context naming the htpasswd cluster admin precedes every one that says nothing of a cluster admin |
| `Kubeconfig.UserIsFirst` | integration-tests/rhoai-e2e/k8s/external_kubeconfig.py:544-546 | The user found is the first one of that name |
| `Kubeconfig.ContextIsFirst` | integration-tests/rhoai-e2e/k8s/external_kubeconfig.py:537-539 | The context found is the first one of that name |
| `Kubeconfig.Workspace.Dump` | integration-tests/rhoai-e2e/k8s/external_kubeconfig.py:389-405 | A temporary file is left only with its content written, or when the dump fails with an error that is not caught |
| `Kubeconfig.Workspace.WriteKubeconfigCurrentContext` | integration-tests/rhoai-e2e/k8s/external_kubeconfig.py:389-405 | Success leaves one new file with the switched context; a caught failure leaves none |
| `Kubeconfig.Workspace.ContextHasClusterAdmin` | integration-tests/rhoai-e2e/k8s/external_kubeconfig.py:408-427 | Probing answers what the API says, or no for every context without an oc binary, and leaves no file |
| `Kubeconfig.Workspace.Candidates` | integration-tests/rhoai-e2e/k8s/external_kubeconfig.py:430-480 | The candidates are ranked and are exactly the eligible contexts |
| `Kubeconfig.Workspace.ResolveExternalKubeconfigContext` | integration-tests/rhoai-e2e/k8s/external_kubeconfig.py:430-502 | The context is an admin one of greatest score and least name; of the two outcomes, a context is given if and only if a candidate can be seen to be admin, and else NoAdminContext is raised |
| `Kubeconfig.Workspace.MaterializeFrom` | integration-tests/rhoai-e2e/k8s/external_kubeconfig.py:533-599 | What is handed over is the file as it was or the file cut down to its current context with a token; the first user of the first current context has no exec plugin; intermediate files are gone; it raises only when something failed or the cluster is missing |
| `Kubeconfig.Workspace.CutDown` | integration-tests/rhoai-e2e/k8s/external_kubeconfig.py:533-588 | The file may stay as it is exactly without exec plugin, by index; else the copy holds that one context, its cluster and a token |
| `Kubeconfig.Workspace.MaterializeKubeconfigForTekton` | integration-tests/rhoai-e2e/k8s/external_kubeconfig.py:505-599 | The caller owns exactly the file returned when it is temporary; on a caught error no temporary file exists |
| `Kubeconfig.Workspace.UploadKubeconfig` | integration-tests/rhoai-e2e/k8s/external_kubeconfig.py:602-645 | After the upload, however it ended by AppError or OSError, exactly the earlier files exist; the uploaded context is the chosen one and logs in without exec plugin; when nothing failed around it, it raises only for an unknown context, for want of an admin, or for a missing cluster |
| `ServiceMesh.OrphansAreExpendable` | integration-tests/rhoai-e2e/install/gateway_config.py:1101-1120 | What is selected is a Pending or Failed Service Mesh CSV that no non-Failed InstallPlan names, and a Failed one is no subscription target |
| `ServiceMesh.OrphanIff` | integration-tests/rhoai-e2e/install/gateway_config.py:1061-1120 | The rule comes down to a table: a failed CSV goes unless wanted; a pending one unless wanted and neither left behind nor the only one under a failed resolution; none in another phase, and none that a known InstallPlan is installing |
| `ServiceMesh.RepairableIff` | integration-tests/rhoai-e2e/install/gateway_config.py:400-498 | A subscription is repaired if and only if it is one of the Service Mesh, complete, and misses its InstallPlan or a CSV it points at |
| `ServiceMesh.StalePlansHaveFailed` | integration-tests/rhoai-e2e/install/gateway_config.py:1151-1171 | Every InstallPlan removed after the CSVs is Failed: the RequiresApproval case cannot arise |
| `ServiceMesh.SecondSweepFindsNothing` | integration-tests/rhoai-e2e/install/gateway_config.py:1061-1171 | With the subscriptions as they are, a second sweep on the result selects nothing |
| `ServiceMesh.NothingLeftToRepair` | integration-tests/rhoai-e2e/install/gateway_config.py:501-546 | A repair that was refused nothing leaves no subscription to repair, to the CSVs it was shown |
| `ServiceMesh.RepairableAfterSweepIff` | integration-tests/rhoai-e2e/install/gateway_config.py:515-532 | A subscription in no need of repair needs one after the sweep if and only if it is complete and the sweep took a CSV that it names |
| `ServiceMesh.NextCallIdleIff` | integration-tests/rhoai-e2e/install/gateway_config.py:1045-1172 | After a call that was refused nothing, one more finds nothing to repair or select if and only if the sweep took no CSV from under a complete subscription |
| `ServiceMesh.UpgradeIsUndone` | integration-tests/rhoai-e2e/install/gateway_config.py:1045-1172 | An upgrade with both CSVs Pending: the first call takes the old CSV, the second recreates the subscription and takes the new one |
| `ServiceMesh.FailedListingProtectsNothing` | integration-tests/rhoai-e2e/install/gateway_config.py:1016-1042 | If the first InstallPlan listing fails, a plan waiting for approval and its CSV are torn down |
| `ServiceMesh.InFlightSelectedIff` | integration-tests/rhoai-e2e/install/gateway_config.py:1101-1120 | A CSV under installation is selected if and only if the first InstallPlan listing was not answered and the other conditions make it a candidate |
| `ServiceMesh.StaysIff` | integration-tests/rhoai-e2e/install/gateway_config.py:437-546 | A subscription outlasts every outcome of the deletions if and only if, to the CSVs shown, it needs no repair |
| `ServiceMesh.RepairIsConfined` | integration-tests/rhoai-e2e/install/gateway_config.py:501-546 | Subscriptions without need stay, and whatever is new is a re-creation |
| `ServiceMesh.UnlistedCsvsLookMissing` | integration-tests/rhoai-e2e/install/gateway_config.py:515-532 | After a failed CSV listing a subscription is re-created if and only if it is complete and misses its InstallPlan or names any CSV |
| `ServiceMesh.HealthyIsRecreated` | integration-tests/rhoai-e2e/install/gateway_config.py:515-532 | A healthy subscription that a failed CSV listing has deleted and applied afresh |
| `ServiceMesh.RecreatedIsRepaired` | integration-tests/rhoai-e2e/install/gateway_config.py:448-498 | A recreated subscription needs no second repair and points at no CSV |
| `ServiceMesh.CollectTargets` | integration-tests/rhoai-e2e/install/gateway_config.py:1061-1071 | The loop gathers exactly the targets and notices exactly a failed resolution |
| `ServiceMesh.CollectUpgradeStale` | integration-tests/rhoai-e2e/install/gateway_config.py:1088-1099 | The loop gathers exactly the installed CSVs that an upgrade leaves behind |
| `ServiceMesh.InstallPlanTargetCsvs` | integration-tests/rhoai-e2e/install/gateway_config.py:1016-1042 | Exactly the Service Mesh CSVs on non-Failed InstallPlans, none if the listing failed |
| `ServiceMesh.Classify` | integration-tests/rhoai-e2e/install/gateway_config.py:1101-1120 | One round of the selection decides by the selection rule |
| `ServiceMesh.SelectOrphans` | integration-tests/rhoai-e2e/install/gateway_config.py:1061-1120 | The selected names are exactly those of CSVs that meet the rule, and exactly those of the table |
| `ServiceMesh.OperatorNamespace.DeleteOrphans` | integration-tests/rhoai-e2e/install/gateway_config.py:1125-1138 | The CSVs that remain are those whose deletion did not go through |
| `ServiceMesh.OperatorNamespace.DeleteStalePlans` | integration-tests/rhoai-e2e/install/gateway_config.py:1140-1171 | Only InstallPlans that are stale can disappear, and each of them does or was refused |
| `ServiceMesh.OperatorNamespace.RepairSubscriptions` | integration-tests/rhoai-e2e/install/gateway_config.py:501-546 | With listings, deletions and applies that may fail: the subscriptions become exactly what the CSVs shown and the outcomes make of them, re-applications are counted, every one in need is re-applied when nothing is refused, and an unanswered subscription listing changes nothing |
| `ServiceMesh.OperatorNamespace.SweepOrphans` | integration-tests/rhoai-e2e/install/gateway_config.py:1048-1172 | The sweep behind the repair, with listings and deletions that may fail: the count, exactly the orphans under the protection there was are attempted, every InstallPlan naming one goes or was refused, no non-Failed plan goes while the listing was answered, and with every answer and no refusal a further sweep selects nothing |
| `ServiceMesh.OperatorNamespace.ReconcileOlmConflicts` | integration-tests/rhoai-e2e/install/gateway_config.py:1045-1172 | Repair and sweep as one call under any answers: subscriptions, CSVs, InstallPlans and the count; with every answer and no refusal, the condition on which one more call is idle |
| `MergePatch.LeavesArrive` | integration-tests/rhoai-e2e/install/dsc_install.py:563-615 | Merging a JSON patch (section 2 of RFC 7396) puts every leaf of the patch into the result |
| `MergePatch.OtherFieldsStay` | integration-tests/rhoai-e2e/install/dsc_install.py:563-615 | Merging keeps every field the patch does not run through, for any document |
| `MergePatch.NullRemoves` | integration-tests/rhoai-e2e/install/dsc_install.py:563-615 | A null in a patch takes the field away, a text takes its place |
| `MergePatch.MergeTwice` | integration-tests/rhoai-e2e/install/dsc_install.py:563-615 | Merging a null-free patch twice equals merging it once |
| `YamlBlocks.RoundTrip` | integration-tests/rhoai-e2e/install/dsc_install.py:392-449 | Parsing the printed block YAML gives back the tree |
| `DscBuilders.ComponentLines` | integration-tests/rhoai-e2e/install/dsc_install.py:310-356 | One round of the printer prints the component tree |
| `DscBuilders.AllComponentLines` | integration-tests/rhoai-e2e/install/dsc_install.py:411-430 | The loop over the keys prints the whole component tree |
| `DscBuilders.GatewayProbe.SupportsField` | integration-tests/rhoai-e2e/install/dsc_install.py:236-257 | The CRD is asked only while nothing is remembered; an answer is remembered, a failure is not |
| `DscBuilders.BuildDscSmokeYaml` | integration-tests/rhoai-e2e/install/dsc_install.py:392-449 | The text is the printed tree of the document under the one or two answers of the probe, whose memo ends as those leave it; read back, it says what the selection asks for |
| `DscBuilders.AddComponent` | integration-tests/rhoai-e2e/install/dsc_install.py:574-605 | One round of the patch builder adds exactly the JSON of the component tree |
| `DscBuilders.BuildComponentsPatch` | integration-tests/rhoai-e2e/install/dsc_install.py:563-605 | The patch is the JSON form of the component tree and says what the selection asks for |
| `DscBuilders.BuildersAgree` | integration-tests/rhoai-e2e/install/dsc_install.py:392-605 | For every selection, parsing the YAML gives the tree whose JSON is the patch |
| `DscBuilders.TreeSaysSelection` | integration-tests/rhoai-e2e/install/dsc_install.py:310-448 | Exactly the listed components, aigateway only where used; every plain one in the state the selection asks for and nothing else; kserve and aigateway field by field |
| `DscBuilders.PrintedSays` | integration-tests/rhoai-e2e/install/dsc_install.py:392-449 | Read back, the document is the named DataScienceCluster and says that |
| `DscBuilders.PatchedDscSaysSelection` | integration-tests/rhoai-e2e/install/dsc_install.py:563-615 | After the patch every listed component of any DataScienceCluster is in the state the selection asks for |
| `DscBuilders.PatchedDscAgreesWithYaml` | integration-tests/rhoai-e2e/install/dsc_install.py:563-615 | Patching any DataScienceCluster gives it every state the YAML names, keeps the other fields, and a second patch changes nothing |
| `DscBuilders.KserveMaas` | integration-tests/rhoai-e2e/install/dsc_install.py:310-337 | The printed kserve block switches models-as-a-service on exactly without the gateway |
| `DscBuilders.AigatewayMaas` | integration-tests/rhoai-e2e/install/dsc_install.py:340-356 | The printed aigateway block does so exactly with it |
| `DscBuilders.AnswersDifferIff` | integration-tests/rhoai-e2e/install/dsc_install.py:236-257 | For one version the two answers differ if and only if nothing was remembered, the first probe failed and the second found the field; the first is then the no |
| `DscBuilders.MaasLostIff` | integration-tests/rhoai-e2e/install/dsc_install.py:392-449 | Then models as a service is on in neither place, and otherwise in exactly one, never in both |
| `DscBuilders.MaasPlacedOnceIffAnswersAgree` | integration-tests/rhoai-e2e/install/dsc_install.py:310-356 | For any two answers, it is on in exactly one place if and only if they agree, and in both if and only if the second takes back the first |
| `DscPolicy.OverlapIsLlamaStack` | integration-tests/rhoai-e2e/install/dsc_install_policy.py:297-305 | Managed and stale sets share at most llamastackoperator |
| `DscPolicy.InstallRemoved` | integration-tests/rhoai-e2e/install/dsc_install_policy.py:171-188 | Exactly the keys some matching version band, or the chart, removes |
| `DscPolicy.ResolveManagedDscKeys` | integration-tests/rhoai-e2e/install/dsc_install_policy.py:228-262 | Exactly the keys some selected, ungated suite needs, less removals |
| `DscPolicy.StaleRemovedDscKeys` | integration-tests/rhoai-e2e/install/dsc_install_policy.py:297-305 | Exactly the stale keys; llamastackoperator always |
| `DscPolicy.ManagedIff` | integration-tests/rhoai-e2e/install/dsc_install_policy.py:228-262 | A key is managed if and only if a selected suite that counts asks for it, it is not put off at install time, and it is not the Llama Stack operator beside OGX alone |
| `DscPolicy.StaleIff` | integration-tests/rhoai-e2e/install/dsc_install_policy.py:297-305 | A key is stale if and only if it is the Llama Stack operator, or put off or ogx and asked for by nobody |
| `DscPolicy.PutOffIff` | integration-tests/rhoai-e2e/install/dsc_install_policy.py:171-188 | Put off are the keys of the bands that cover the version, and with one of those the keys of the sample |
| `DscPolicy.Cluster.ReconcileStale` | integration-tests/rhoai-e2e/install/dsc_install.py:749-776 | Exactly the settled stale keys go from Managed to Removed; every other stale key was missed because its state was not read, one failure each, unless the pass was skipped or a removal failed and ended the process |
| `DscPolicy.Cluster.BatchEnsureManaged` | integration-tests/rhoai-e2e/install/dsc_install.py:721-728 | When the pass finishes every wanted key is Managed; when it is skipped nothing changes, when it raises some wanted key is missing; all other keys stay, but llamastackoperator may go off |
| `DscPolicy.Cluster.SyncComponent` | integration-tests/rhoai-e2e/runners/component_prereqs.py:98-113 | The same for one component alone |
| `DscPolicy.Cluster.PrepareEach` | integration-tests/rhoai-e2e/runners/component_prereqs.py:345-380 | Components are synchronised one by one, those the version switches off passed over; with every call answered, each key that some other one wants is on |
| `DscPolicy.Cluster.WantedOneByOne` | integration-tests/rhoai-e2e/install/dsc_install.py:378-389 | Apart from llamastackoperator the fallback wants what the batch wanted and nothing else, save the dashboard when every selected suite is switched off |
| `DscPolicy.Cluster.PrepareComponents` | integration-tests/rhoai-e2e/runners/component_prereqs.py:584-624 | For every combination of failures, the state of each key as the passes settled it; the last pass leaves no key Managed that it settled; a fallback with every later answer switches on all that is wanted; without failures each key is in the final state of its class |
| `DscPolicy.EndsManagedIff` | integration-tests/rhoai-e2e/runners/component_prereqs.py:584-624 | A key ends Managed if and only if the last pass missed it, and it was switched on, or was on before and the first pass missed it too |
| `DscPolicy.EndsRemovedIff` | integration-tests/rhoai-e2e/runners/component_prereqs.py:584-624 | A key ends Removed if and only if a pass settled it while it was Managed, or it was so before and nothing switched it on |
| `DscPolicy.EndedIsPrepared` | integration-tests/rhoai-e2e/runners/component_prereqs.py:584-624 | Passes that settle all they should reach the final state, and another preparation would not change it |
| `DscPolicy.ManagedComponentsEndOn` | integration-tests/rhoai-e2e/runners/component_prereqs.py:584-624 | In the final state a managed component is Managed if and only if it is not llamastackoperator |
| `DscPolicy.DashboardEndsOn` | integration-tests/rhoai-e2e/install/dsc_install.py:378-389 | In the final state the dashboard is Managed if and only if the version does not defer it or a selected suite needs it |
| `ShellEnv.EscapedReadsBack` | integration-tests/rhoai-e2e/runners/run_component_golang.py:80-82 | Inside single quotes the escaped text contributes exactly the value |
| `ShellEnv.QuotedReadsBack` | integration-tests/rhoai-e2e/runners/run_component_golang.py:80-82 | Lexing a quoted NUL-free value (sections 2.2.2 and 2.2.3 of the POSIX.1-2017 Shell Command Language) continues one word by exactly the value, nothing expanded |
| `ShellEnv.UnquotedWorksIffReadable` | integration-tests/rhoai-e2e/runners/run_component_golang.py:104-122 | In an assignment, a value written without quotes reads back if and only if it holds no blank, newline, quote, expansion or operator character and no tilde at its beginning or behind a colon |
| `ShellEnv.ValidKeyIsName` | integration-tests/rhoai-e2e/runners/run_component_golang.py:124-130 | A key accepted by the check is a shell name |
| `ShellEnv.ValidKeyIff` | integration-tests/rhoai-e2e/runners/run_component_golang.py:124-130 | The check accepts exactly the shell names that are more than underscores |
| `ShellEnv.FileLoads` | integration-tests/rhoai-e2e/runners/run_component_golang.py:104-133 | Sourcing any list of such lines performs exactly their assignments |
| `ShellEnv.WriteEnvFile` | integration-tests/rhoai-e2e/runners/run_component_golang.py:104-133 | The error arises exactly for an invalid key; otherwise the file is the base lines and the sorted exports |
| `ShellEnv.SourcingRestoresEverything` | integration-tests/rhoai-e2e/runners/run_component_golang.py:104-133 | Sourcing the file raises no trouble, restores every setting and every exported value, and exports exactly the given keys |
| `KeywordExpr.ParseOrExtends` | integration-tests/rhoai-e2e/runners/run_component_pytest.py:502-507 | Parsing with pytest precedence is unaffected by what follows a complete expression |
| `KeywordExpr.AndTailConjoins` | integration-tests/rhoai-e2e/runners/run_component_pytest.py:502-507 | A conjunction selects the same when conjoined to anything |
| `KeywordExpr.AndTailRegroups` | integration-tests/rhoai-e2e/runners/run_component_pytest.py:502-507 | Both groupings of conjuncts select the same |
| `KeywordExpr.AlternativesSelect` | integration-tests/rhoai-e2e/runners/run_component_pytest.py:502-507 | An expression selects what some of its top-level alternatives selects |
| `KeywordExpr.ParenthesisedAnd` | integration-tests/rhoai-e2e/runners/run_component_pytest.py:502-507 | For any expression S, `( E ) and S` parses and selects what E and the first alternative of S select, or what another alternative selects |
| `KeywordExpr.LexExtends` | integration-tests/rhoai-e2e/runners/run_component_pytest.py:502-507 | Lexing splits at a seam that does not join two words |
| `PytestSkip.MergePytestKSkip` | integration-tests/rhoai-e2e/runners/run_component_pytest.py:479-507 | The two index loops compute the merge |
| `PytestSkip.StripQuotesIs` | integration-tests/rhoai-e2e/runners/run_component_pytest.py:500-500 | Only quote marks are stripped, and all of them at both ends |
| `PytestSkip.ConjoinedTextSelects` | integration-tests/rhoai-e2e/runners/run_component_pytest.py:502-507 | For every fragment that parses, the merged text parses and selects what the existing expression and the first alternative select together, or what another alternative selects |
| `PytestSkip.ConjoinedTextSelectsBoth` | integration-tests/rhoai-e2e/runners/run_component_pytest.py:502-507 | With a conjunction, the merged text selects exactly what both parts select |
| `PytestSkip.MergedText` | integration-tests/rhoai-e2e/runners/run_component_pytest.py:479-507 | For every fragment that parses, unless the substring test fires, the first -k argument becomes the merged text |
| `PytestSkip.MergeSelectsBoth` | integration-tests/rhoai-e2e/runners/run_component_pytest.py:479-507 | Unless the substring test fires, merging a conjunction replaces the expression by one selecting both |
| `PytestSkip.MergeSelectsBothIff` | integration-tests/rhoai-e2e/runners/run_component_pytest.py:479-507 | For every fragment that parses, a merge selects what both expressions select if and only if, where its text is found in the expression, the expression implies it, and elsewhere its alternatives but the first imply the expression |
| `PytestSkip.AlternativeEscapes` | integration-tests/rhoai-e2e/runners/run_component_pytest.py:502-502 | A test matching c is chosen after merging `b or c`, whatever the arguments chose before |
| `PytestSkip.OrFragmentEscapes` | integration-tests/rhoai-e2e/runners/run_component_pytest.py:502-502 | For any names a, b and c, a merged with `b or c` chooses a test that a does not choose |
| `PytestSkip.ForInstance` | integration-tests/rhoai-e2e/runners/run_component_pytest.py:502-502 | The text `(a) and b or c`, and a test named c that it chooses |
| `PytestSkip.MergeTwice` | integration-tests/rhoai-e2e/runners/run_component_pytest.py:479-507 | Merging the same fragment again changes nothing |
| `PytestSkip.FirstFragmentIsTaken` | integration-tests/rhoai-e2e/runners/run_component_pytest.py:479-507 | Arguments without -k take over the expression of the first fragment |
| `PytestSkip.MergeAllSelectsAll` | integration-tests/rhoai-e2e/runners/run_component_pytest.py:722-731 | Folding any fragments into arguments with a -k selects exactly what the original and every fragment choose |
| `PytestSkip.MergeAllFromNone` | integration-tests/rhoai-e2e/runners/run_component_pytest.py:722-731 | The same for arguments without a -k |
| `PytestSkip.SubstringTestDropsFragment` | integration-tests/rhoai-e2e/runners/run_component_pytest.py:501-501 | `not foo` is dropped beside `not foobar`, and a test named foo runs |
| `LaunchLadder.LadderLimitsPytest` | integration-tests/rhoai-e2e/runners/run_bvt_pytest.py:353-491 | In every ladder at most three pytest launches, and none follows exit 0, 1 or 124 |
| `LaunchLadder.RanksRise` | integration-tests/rhoai-e2e/runners/run_bvt_pytest.py:353-491 | Launches climb: no rung is taken twice |
| `LaunchLadder.Runner.Remaining` | integration-tests/rhoai-e2e/runners/run_bvt_pytest.py:191-194 | What is left of the budget at this moment, never negative |
| `LaunchLadder.Runner.RunWithTee` | integration-tests/rhoai-e2e/runners/run_bvt_pytest.py:218-276 | Every launch is logged with the readings behind it; a timeout of zero becomes none |
| `LaunchLadder.Runner.RunPhase` | integration-tests/rhoai-e2e/runners/run_bvt_pytest.py:357-364 | A phase starts unless the budget is spent at that moment, and not once it is; every launch so far is unlimited if and only if the clock passed the end between check and grant, and is otherwise stopped at the end plus the time between grant and beginning |
| `LaunchLadder.Runner.UvPhases` | integration-tests/rhoai-e2e/runners/run_bvt_pytest.py:370-410 | The uv rungs keep the ladder and explain their outcome |
| `LaunchLadder.Runner.PipFallback` | integration-tests/rhoai-e2e/runners/run_bvt_pytest.py:440-491 | The pip rung runs only without a readable JUnit file |
| `LaunchLadder.Runner.RunSingle` | integration-tests/rhoai-e2e/runners/run_bvt_pytest.py:286-491 | The whole run is a ladder; each exit code has its reason, 124 without a launch only a budget that is spent, and a failing fallback the check that failed; the pip rung only ran without a readable JUnit file, and every launch kept the budget in that sense |
| `Rhcl.KuadrantSystem.ReconcileOperatorGroups` | integration-tests/rhoai-e2e/install/rhcl_deps.py:146-195 | With an answered listing exactly one group remains, the own one or the first listed, from any set; a failed one adds the own group, which leaves one group if and only if no foreign one existed |
| `Rhcl.KuadrantSystem.DeleteStuckCsv` | integration-tests/rhoai-e2e/install/rhcl_deps.py:269-296 | A CSV goes exactly when its existence and its phase were read and the phase is Failed or Replacing; without either answer it stays |
| `Rhcl.KuadrantSystem.DeleteStuckStackCsvs` | integration-tests/rhoai-e2e/install/rhcl_deps.py:306-327 | Exactly the stuck stack CSVs whose reads were answered go, other than the one to keep; without the listing none |
| `Rhcl.KuadrantSystem.CleanCsvs` | integration-tests/rhoai-e2e/install/rhcl_deps.py:636-640 | Exactly the stuck CSVs whose reads were answered go, all of them when every read was, and sparing the target makes no difference |
| `Rhcl.KuadrantSystem.PurgeBlockingPlans` | integration-tests/rhoai-e2e/install/rhcl_deps.py:354-390 | Exactly the named InstallPlans that mention another RHCL CSV go, or none at all when the listing is not answered |
| `Rhcl.KuadrantSystem.DeleteWaitingPlans` | integration-tests/rhoai-e2e/install/rhcl_deps.py:404-453 | Exactly the named, unapproved, stuck InstallPlans that wait for an orphan or block go, or none at all when the listing is not answered |
| `Rhcl.SurvivorsPinTargetIff` | integration-tests/rhoai-e2e/install/rhcl_deps.py:354-453 | Every remaining named InstallPlan pins RHCL to the target if and only if the purge got its listing, or each one that did not was a stuck one and the later sweep got its own |
| `Rhcl.SettledStaysIff` | integration-tests/rhoai-e2e/install/rhcl_deps.py:630-656 | A subscription whose CSV is the Succeeded target is started over exactly when its CSV is read and then its existence goes unanswered, or only its phase does |
| `Rhcl.SettledIsStartedOver` | integration-tests/rhoai-e2e/install/rhcl_deps.py:269-279 | Such a subscription, deleted and applied afresh after one unanswered read |
| `Rhcl.PhantomGoesIff` | integration-tests/rhoai-e2e/install/rhcl_deps.py:630-656 | A subscription naming a CSV that is not there is freed of it if and only if the name and the existence of the subscription are read |
| `Rhcl.AnsweredIsRecovered` | integration-tests/rhoai-e2e/install/rhcl_deps.py:630-656 | With every read answered: exactly the failed or replaced CSVs of the stack and the two RHCL ones go, exactly the InstallPlans go that take RHCL elsewhere or wait for an orphan, and the subscription is started over if and only if its CSV is not the Succeeded target |
| `Rhcl.StackIff` | integration-tests/rhoai-e2e/install/rhcl_deps.py:284-286 | A CSV is of the stack if and only if the part before its first dot mentions one of six operators |
| `Rhcl.SurvivesIff` | integration-tests/rhoai-e2e/install/rhcl_deps.py:354-453 | With both listings an InstallPlan goes if and only if it is named and takes RHCL elsewhere or, stuck and unapproved, names an orphan |
| `Rhcl.KuadrantSystem.ReconcileStuckSubscription` | integration-tests/rhoai-e2e/install/rhcl_deps.py:630-656 | For every combination of answered reads: which CSVs and InstallPlans remain, what becomes of the subscription and the groups, and when the pinning raises; with every answer, exactly the stuck CSVs go and the orphan is a CSV that is not there |
| `JobSweep.SweepsPartition` | integration-tests/rhoai-e2e/install/install_and_verify.py:1707-1734 | No Job is both failed and successful, the sweeps are disjoint, and what they leave is exactly the half-finished Jobs |
| `JobSweep.SweptIff` | integration-tests/rhoai-e2e/install/install_and_verify.py:1707-1734 | Both sweeps take exactly the named unpack Jobs that have failed, never succeeded, or are done |
| `JobSweep.SweepsCompose` | integration-tests/rhoai-e2e/install/install_and_verify.py:1758-1879 | Sweep after sweep removes what either selects |
| `JobSweep.SecondSweepsTheSame` | integration-tests/rhoai-e2e/install/install_and_verify.py:1758-1879 | What the first sweep takes or tries in vain does not change what the second tries |
| `JobSweep.SweepsAddUp` | integration-tests/rhoai-e2e/install/install_and_verify.py:1899-1903 | The attempts of both sweeps number the Jobs that either selects |
| `JobSweep.TargetsApart` | integration-tests/rhoai-e2e/install/install_and_verify.py:1758-1879 | The two sweeps together try no Job twice |
| `JobSweep.RefusalsUpset` | integration-tests/rhoai-e2e/install/install_and_verify.py:1798-1817 | Jobs left and Jobs counted number all Jobs if and only if no selected deletion was refused, and never fewer |
| `JobSweep.SparedIsRest` | integration-tests/rhoai-e2e/install/install_and_verify.py:1758-1879 | Spared and swept Jobs together are all Jobs |
| `JobSweep.Marketplace.Sweep` | integration-tests/rhoai-e2e/install/install_and_verify.py:1758-1879 | A sweep tries to delete exactly what it selects, by name and in order, and counts the attempts, whether or not they succeed; without a listing it does nothing |
| `JobSweep.Marketplace.SweepUnpackJobs` | integration-tests/rhoai-e2e/install/install_and_verify.py:1899-1903 | Under any answers: which Jobs are left, that no Job is tried twice, that the count is that of the attempts, and that it balances with the Jobs left exactly if no selected deletion was refused |
| `ManifestPatch.SplittingIsLossless` | integration-tests/rhoai-e2e/install/install_and_verify.py:117-118 | Cutting at apiVersion lines and joining loses nothing |
| `ManifestPatch.JoinSplits` | integration-tests/rhoai-e2e/install/install_and_verify.py:117-118 | Parts cut that way are found again after joining |
| `ManifestPatch.GroupIsFound` | integration-tests/rhoai-e2e/install/install_and_verify.py:88-90 | A document of kind OperatorGroup is found by searching the whole text |
| `ManifestPatch.EarlyReturnIsRight` | integration-tests/rhoai-e2e/install/install_and_verify.py:78-79 | Returning early without OperatorGroup is what patching would give |
| `ManifestPatch.SourceKeysAreValid` | integration-tests/rhoai-e2e/install/install_and_verify.py:42-43 | The two annotation keys cannot be mistaken for each other |
| `ManifestPatch.SettingChangesOneLine` | integration-tests/rhoai-e2e/install/install_and_verify.py:91-105 | Replacing a present value changes one line |
| `ManifestPatch.PatchReplacesValues` | integration-tests/rhoai-e2e/install/install_and_verify.py:91-106 | With both annotations valued, patching sets both and changes no other line |
| `ManifestReading.GroupIff` | integration-tests/rhoai-e2e/install/install_and_verify.py:88-90 | A document is an OperatorGroup if and only if a line reads kind: and the word follows, stripped, there or on the next line that is not blank |
| `ManifestReading.OthersStay` | integration-tests/rhoai-e2e/install/install_and_verify.py:88-90 | Any other document stays as it is |
| `ManifestReading.ValuesAreWritten` | integration-tests/rhoai-e2e/install/install_and_verify.py:91-105 | With both values there, the first line of each annotation is written anew behind its indentation, and nothing else changes |
| `ManifestReading.TimeoutAloneIsWritten` | integration-tests/rhoai-e2e/install/install_and_verify.py:91-105 | Without a retry annotation the timeout line alone is |
| `ManifestReading.BlockIsWritten` | integration-tests/rhoai-e2e/install/install_and_verify.py:107-114 | Without a timeout annotation three lines, given letter by letter, are put behind the first metadata line and the blank lines after it |
| `ManifestReading.NoPlaceNoChange` | integration-tests/rhoai-e2e/install/install_and_verify.py:107-115 | Without a place for them nothing changes |
| `ManifestPatch.KindKeptByBlock` | integration-tests/rhoai-e2e/install/install_and_verify.py:107-114 | An inserted block does not hide the kind |
| `ManifestPatch.PatchDocTwice` | integration-tests/rhoai-e2e/install/install_and_verify.py:88-115 | Patching a document twice equals once if and only if no retry annotation with another value stands above the metadata of a document without timeout annotation |
| `ManifestPatch.PatchKeepsCuts` | integration-tests/rhoai-e2e/install/install_and_verify.py:88-118 | Patching moves no document boundary |
| `ManifestPatch.PartsOfPatched` | integration-tests/rhoai-e2e/install/install_and_verify.py:117-118 | Cutting the patched manifest gives the patched documents, so documents of other kinds are unchanged |
| `ManifestPatch.PatchTwice` | integration-tests/rhoai-e2e/install/install_and_verify.py:72-126 | Patching a manifest twice equals once if and only if each document settles, given that annotations present have values |
| `ManifestPatch.UnsettledManifest` | integration-tests/rhoai-e2e/install/install_and_verify.py:72-126 | For every setting there is a manifest whose annotations have values and which patching twice changes twice |
| `ManifestPatch.EmptyValueLosesLines` | integration-tests/rhoai-e2e/install/install_and_verify.py:91-105 | Setting a value loses lines if and only if the annotation is there without value and is not the last line |
| `ManifestPatch.EmptyValueJoinsDocuments` | integration-tests/rhoai-e2e/install/install_and_verify.py:91-118 | An empty annotation at the end of a document glues the next document to its line |
| `SnapshotOverlay.RepoOfReference` | early-gate/tasks/scripts/apply_snapshot_overrides.py:26-35 | The repository found in a plain, tagged or pinned reference is its path; in one both tagged and pinned it keeps the tag |
| `SnapshotOverlay.BuildMaps` | early-gate/tasks/scripts/apply_snapshot_overrides.py:38-58 | Each image is filed under its own repository; the last component of a repository or source wins; no source is filed under an empty URL |
| `SnapshotOverlay.OverrideOperands` | early-gate/tasks/scripts/apply_snapshot_overrides.py:61-85 | Exactly the operands of a known repository get its image, in place, and are counted |
| `SnapshotOverlay.OverrideKeepsRepo` | early-gate/tasks/scripts/apply_snapshot_overrides.py:71-82 | An override keeps the repository, and a second one changes nothing |
| `SnapshotOverlay.RepoKeptIffSound` | early-gate/tasks/scripts/apply_snapshot_overrides.py:46-48 | Operands keep their repositories under a map if and only if it files images under their own repositories, for every map whose keys carry no digest |
| `SnapshotOverlay.SameCountAgain` | early-gate/tasks/scripts/apply_snapshot_overrides.py:71-85 | A second override reports the same count |
| `SnapshotOverlay.DigestMeetsSnapshot` | early-gate/tasks/scripts/apply_snapshot_overrides.py:26-35 | A pinned operand meets a tagged or pinned snapshot image but misses one that is both |
| `SnapshotOverlay.OverrideManifests` | early-gate/tasks/scripts/apply_snapshot_overrides.py:88-117 | Exactly the manifests of a built source get its commit, in place, and are counted |
| `SnapshotOverlay.RecommittedTwice` | early-gate/tasks/scripts/apply_snapshot_overrides.py:98-112 | A second override changes nothing, and no such manifest follows a branch |
| `PullSecret.ReleaseKeysAreOthers` | integration-tests/rhoai-e2e/install/cluster_registry.py:162-173 | None of the keys behind the coverage verdict is in the scope of a merge |
| `PullSecret.NothingToMerge` | integration-tests/rhoai-e2e/install/cluster_registry.py:218-228 | A merge is refused if and only if there is neither an RHOAI entry nor a credential to stand in |
| `PullSecret.QuayAuthFrom` | integration-tests/rhoai-e2e/install/cluster_registry.py:144-159 | The credential comes from quay.io/rhoai, else the fragment repository, else an entry below, and from quay.io only when no RHOAI entry has one |
| `PullSecret.CoversIff` | integration-tests/rhoai-e2e/install/cluster_registry.py:42-56 | The secret covers the release images if and only if one of their two entries has a credential that is the release robot or not RHOAI, or quay.io has a user that is not RHOAI |
| `PullSecret.HealingCovers` | integration-tests/rhoai-e2e/install/cluster_registry.py:59-120 | Coverage after healing holds if and only if it held or could be healed; only the two release keys are touched and get the credential of cloud.openshift.com; a second healing does nothing |
| `PullSecret.ClusterSecret.MergeRhoai` | integration-tests/rhoai-e2e/install/cluster_registry.py:218-241 | The stored secret gains the scoped entries and keeps every other key, so that a second merge would change nothing; refused merges write nothing |
| `PullSecret.ClusterSecret.EnsureReleaseAuth` | integration-tests/rhoai-e2e/install/cluster_registry.py:59-120 | The secret is healed and written exactly when it can be |
| `PullSecret.ClusterSecret.Preflight` | integration-tests/rhoai-e2e/install/cluster_registry.py:123-141 | A strict preflight fails exactly when coverage is missing and cannot be healed |
| `PullSecret.MergeKeepsCoverage` | integration-tests/rhoai-e2e/install/cluster_registry.py:42-56 | Merging leaves the verdict and the chance to heal as they were |
| `PullSecret.MergeAndHealCommute` | integration-tests/rhoai-e2e/install/cluster_registry.py:59-241 | Merging and healing in either order give the same secret |
| `SecretName.NameIsLabelIff` | integration-tests/rhoai-e2e/k8s/external_kubeconfig.py:149-163 | The promised DNS-safe name is one if and only if the owner is not cut off right behind a dash |
| `SecretName.CutEnds` | integration-tests/rhoai-e2e/k8s/external_kubeconfig.py:149-163 | A cut slug ends in a dash exactly when the last kept letter is one |
| `SecretName.ShortOwnersAreFine` | integration-tests/rhoai-e2e/k8s/external_kubeconfig.py:149-163 | Owners of up to sixteen letters always get a proper name |
| `SecretName.CutBehindDash` | integration-tests/rhoai-e2e/k8s/external_kubeconfig.py:149-163 | A seventeen-letter owner for which no cluster gives a proper name |
| `SecretName.SlugTwice` | integration-tests/rhoai-e2e/k8s/external_kubeconfig.py:149-163 | A slug is its own slug |
| `SecretName.PlainNamesAreKept` | integration-tests/rhoai-e2e/k8s/external_kubeconfig.py:149-163 | Plain names that are short enough are found in the Secret name as they are |
| `SecretName.SlugOfLower` | integration-tests/rhoai-e2e/k8s/external_kubeconfig.py:149-163 | Letter case does not matter |

## Left out

- Kubernetes and OLM acting between two reads of one sweep: each sweep works on a stable namespace; the watchdog and the
  lock face an arbitrary environment instead.
- Subprocess time-outs of `oc` other than a failing apply, logging, and the diagnostic reads of every sixth loop body.
- The clock is assumed not to run backwards, and a sleep to last at least its length.
- BundleUnpackLaws.KicksAreCounted: without a manifest it states only that there are no kicks, because recoveries that
  delete nothing are then not counted by the code.
- BundleUnpackDuties.StepIsDue: without a manifest it leaves open whether the clock is read after an empty listing, because
  the timer started there is then never used.
- LockProtocol.KeyMutualExclusion: holds for considerate steps and legible checks: a Secret keeps its lock key once written,
  is not deleted for a run that still holds under it without a key annotation nor after an undecodable reply, and every
  check reads the key that it shares with a run inside. Each condition has its counterexample.
- LockProtocol.SourceMutualExclusion: a run that ended is assumed never to become active again, one that has started
  never to become pending again while it is active, each listing is atomic,
  and no check is answered by an undecodable reply; `LockProtocol.SourceCheckIff` says what happens then.
- PytestSkip.MergeAllSelectsAll: fragments are conjunctions, and the substring test fires only for a fragment merged before.
- Rhcl.KuadrantSystem.ReconcileStuckSubscription: deletes, applies and patches of existing objects go through, and an
  answer that does not decode reads as none.
- LaunchLadder.Runner.RunSingle: the time a process takes to die after its time-out, the output of the subprocess and the
  kill after a time-out are not modelled, only exit codes and times.
- ManifestPatch.PatchTwice: annotations present have values; what an empty one does is stated apart. The dots of the keys
  are matched literally, and lines are those between newlines.
- SnapshotOverlay.BuildMaps: entries of the snapshot that are no mapping, and missing URL or commit, read as absent or empty.
- PullSecret.HealingCovers: decoding a credential is a parameter; other fields of an entry are one string.
- SecretName.NameIsLabelIff: letters outside ASCII count as characters to be replaced; the cluster label is a parameter.
- Kubeconfig.Workspace.UploadKubeconfig: removing a file is assumed to succeed; login, Secret rendering and apply are
  arbitrary outcomes.
- ShellEnv.SourcingRestoresEverything: the values of the lines written without quotes are assumed readable; for one such
  assignment `ShellEnv.UnquotedWorksIffReadable` says exactly which values work. A tilde behind a quoted colon, a lone
  dollar sign and blanks of other locales are taken as special, special and literal. Keys outside ASCII are not modelled.
- DscBuilders.MaasLostIff: the operator version is given; if it has to be looked up twice the two verdicts may differ, and
  `DscBuilders.MaasPlacedOnceIffAnswersAgree` says what follows from any two answers.
- Replies of other listings that decode to no mapping raise an exception in the code, which is not modelled.
- DscPolicy.Cluster.PrepareComponents: keys that a component's own preparation patches are stated only to end not Managed
  when the last stale pass settles them, and so is llamastackoperator after a fallback; keys are taken in any order, and
  the operator version is the same in all passes.
- Shell splitting and joining around the `-k` merge: arguments are lists of tokens.
- Lower-casing and stripping cover ASCII only.
- JUnit salvage from a console log, accumulating exit files, and the nudge loop for the models-as-a-service gateway: each
  adds members about one function only.
- Labels and URLs scraped from kubeconfigs, log redaction, S3, Vault, HTTP and container staging.
