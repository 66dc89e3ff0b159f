# Verified model of the OpenAgentHarness sync, control and archive core

A Dafny 4.11 model of six parts of the repository and proofs of what they promise. Check it with
`dafny verify dfyconfig.toml`.

**Directory sync** (`Paths`, `Storage`, `Manifest*`, `TornShards`, `LocalTree`, `ScanLaws`, `Fingerprints`, `Push*`,
`IndexProofs`, `RunProofs`, `IndexTheorems`, `SyncRuns`, `Cleaning`, `Pull*`, `RoundTrip`). A push scans a directory, compares it with the
prefix, uploads, deletes and rewrites the manifest; on a store with paged listings the manifest replaces the
listing. `IndexTheorems.AgreesIff` and `SyncRuns.RunAgreesIff` say exactly when that index stays true: every file
has a time stamp of at least one millisecond and no path turns from a file into an empty directory or back. Under
that condition every run of pushes leaves precisely the last directory in the prefix, and a pull gives it back. A
manifest write cut at any request shows the old or the new manifest, with one exception: when shards overwrite
shards a reader can get a mixture. `TornShards.AtomicIff` says for which pairs of manifests that cannot happen.
A fingerprint tells two directories apart unless a name holds a line break (`Fingerprints`). `PushLaws` and `PullLaws`
say for any prefix, and for any local directory, which files travel and what is there afterwards, by sizes and times.

**Leader election** (`Lease`, `LeaseProofs`, `LeaderElector`, `Failover`). Electors, the lease, requests in flight and a
shared clock as a state machine with lost answers and late requests; mutual exclusion holds in every reachable state, and
`Failover.TakesOverIff` says from when on another elector takes over a lease that is no longer renewed.

**Placement, capacity and scaling** (`Fleet`, `Sandboxes`, `Placement*`, `Scaling*`). The sandbox count is proved to be
the optimum; the plan is proved safe for any scoring of candidates, and complete for any scoring that always picks one
(`PlacementLaws`); the scaling rules are proved over whole runs, including the ungated scale-down below the sample
size.

**Keyset pagination** (`Keyset`, `TablePages`, `PageLaws`, `CursorWalk`). The compiled condition is compared with the ORDER BY,
nulls included. Following `nextCursor` is a walk over pages: `CursorWalk.EndsIff` says when it ends and
`CursorWalk.ListsAllIff` when it lists every row; a null among the sort values is the only obstacle to either.

**Archive bundles** (`Bundle*`, `WorkerProofs`). The line-protocol worker refines the one-shot batch writer, and
`BundleContents` reads what the batch writer stores off the archives sent.

**Bytes, pools and pruning** (`Multipart`, `Chunked*`, `WorkerPool`, `Pruning`, `PruneLaws`).

`Arith`, `Orders` and `Options` hold shared helpers. Sorting with `localeCompare` is modelled by an arbitrary strict
total order on strings. A hash is represented by the text that is hashed. JSON text is represented by the value it
stands for.

## Model

| member | source | states |
|---|---|---|
| Paths.SplitJoin | apps/server/src/object-storage-manifest.ts:33-35 | splitting a rendered path gives its segments back, and the rendering has no slash at either end |
| Paths.KeyRoundTrip | apps/server/src/object-storage-manifest.ts:37-56 | the key built for a file or a directory marker is read back to its path, and the two kinds are told apart by the trailing slash |
| Paths.KeysDistinct | apps/server/src/object-storage-manifest.ts:37-56 | different paths, and a file and a marker, never share a key |
| Paths.ReservedKeys | apps/server/src/object-storage-manifest.ts:58-86 | manifest, bundle and shard keys stand for ignored paths below the prefix |
| Paths.ShardKeysDistinct | apps/server/src/object-storage-manifest.ts:168-170 | zero-padded shard names are injective for any shard number |
| Storage.ObjectStore.PutObject | apps/server/src/object-storage-s3.ts:643-663 | a put replaces one object and is logged as one request |
| Storage.ObjectStore.DeleteObjects | apps/server/src/object-storage-s3.ts:697-723 | a delete removes all its keys and reaches the service in requests of at most 1000 keys |
| Storage.DeleteOpsEffect | apps/server/src/object-storage-s3.ts:697-723 | the chunked requests together remove exactly the keys |
| Storage.DeleteCut | apps/server/src/object-storage-s3.ts:697-723 | a delete cut short removes some of the keys and touches nothing else |
| Manifest.IsEquivalent | apps/server/src/object-storage-manifest.ts:320-372 | the size-then-lookup comparison decides equality of accepted entries, empty directories and mode |
| Manifest.ShardsPartition | apps/server/src/object-storage-manifest.ts:286-294 | shards cut the sorted entries into full pieces, only the last shorter, losing nothing |
| Manifest.LoadManifest | apps/server/src/object-storage-manifest.ts:181-230 | loading merges the shards in order and gives nothing when the manifest or any shard is unreadable |
| Manifest.WriteShards | apps/server/src/object-storage-manifest.ts:286-294 | the shard loop stores the pieces of the sorted entries under consecutive shard keys |
| Manifest.WriteManifest | apps/server/src/object-storage-manifest.ts:252-318 | the exact requests sent in every branch and the objects they leave |
| ManifestProofs.MergeReadsFiles | apps/server/src/object-storage-manifest.ts:208-229 | merging stored shards from any point gives the remaining entries |
| ManifestProofs.ShardedManifestReadable | apps/server/src/object-storage-manifest.ts:181-230 | with all shards and the top document stored, a reader gets the manifest back |
| ManifestProofs.WriteThenLoad | apps/server/src/object-storage-manifest.ts:252-318 | writing and loading gives the new manifest for any positive shard size, absent meaning empty; an equivalent manifest is left alone |
| ManifestProofs.ReplacementIsAtomic | apps/server/src/object-storage-manifest.ts:252-318 | however the old manifest is stored, a cut write that does not put shards over shards shows the complete old or the complete new manifest |
| TornShards.CutShowsMixture | apps/server/src/object-storage-manifest.ts:286-303 | after any number of shard uploads over an old sharded manifest a reader gets the new pieces so far, the old ones from there on, and the old directories and mode |
| TornShards.ShowsOldOnlyIfSame | apps/server/src/object-storage-manifest.ts:286-303 | the mixture after a piece is the old manifest only if the piece did not change |
| TornShards.ShowsNewIff | apps/server/src/object-storage-manifest.ts:286-303 | a mixture is the new manifest if and only if the old tail has new entries only and all the new paths of the tail |
| TornShards.TailServesOn | apps/server/src/object-storage-manifest.ts:286-294 | a tail that serves from one piece on serves from the next, because paths only move back in the sorted list |
| TornShards.AtomicIff | apps/server/src/object-storage-manifest.ts:252-318 | every cut of a write shows the old or the new manifest if and only if it does not put shards over shards, changes nothing, or leaves directories and mode alone while the old pieces behind the first changed one already serve |
| TornShards.WriteKeepsLayout | apps/server/src/object-storage-manifest.ts:252-318 | the hypothesis of that theorem, old shards cut with the same size, holds after every write |
| TornShards.ShardsOverShardsCanTear | apps/server/src/object-storage-manifest.ts:288-303 | a concrete unsafe write whose first request leaves a manifest that is neither old nor new |
| ManifestProofs.WriteKeepsTidy | apps/server/src/object-storage-manifest.ts:270-317 | after every write the shard objects present are exactly those the manifest names |
| LocalTree.CollectSnapshot | apps/server/src/object-storage-local-snapshot.ts:12-86 | the recursive walk finds exactly the visible files and the visible directories without entries |
| LocalTree.ScanStep | apps/server/src/object-storage-local-snapshot.ts:12-86 | what one child contributes to the scan of its directory, suppressed entries included |
| ScanLaws.ScannedIff | apps/server/src/object-storage-local-snapshot.ts:12-86 | a scan finds exactly the files whose path holds no reserved, cache or side-file name and is not excluded on the way, each as it is |
| ScanLaws.EmptyIff | apps/server/src/object-storage-local-snapshot.ts:12-86 | and exactly the directories at such paths that have no entry of any kind below them |
| LocalTree.LocalDirectory.PruneEmptyDirectories | apps/server/src/object-storage.ts:136-176 | exactly the directories without a file at any depth disappear |
| LocalTree.PrunedScan | apps/server/src/object-storage.ts:136-176 | pruning keeps the scanned files and leaves no empty directory |
| Fingerprints.CreateFingerprint | apps/server/src/object-storage-local-snapshot.ts:88-111 | the hashed text: a line for each file, then one for each empty directory, in path order |
| Fingerprints.FingerprintInjective | apps/server/src/object-storage-local-snapshot.ts:88-111 | when no path holds a line break, equal texts mean equal stamps and equal empty directories |
| Fingerprints.FingerprintsCollide | apps/server/src/object-storage-local-snapshot.ts:91-93 | any two files of the root have the text of one file with a line break in its name |
| Fingerprints.TimesInjective | apps/server/src/object-storage-local-snapshot.ts:88-111 | whatever the names, directories with the same paths and sizes have equal texts only if their times are equal |
| Push.BuildSynthetic | apps/server/src/object-storage-manifest.ts:436-483 | the loop over the manifest builds the listing it stands for |
| Push.BuildIndex | apps/server/src/object-storage.ts:109-127 | the path index keeps the later of two keys for one path |
| Push.IndexOfDistinct | apps/server/src/object-storage.ts:109-127 | with distinct paths the index has exactly the managed keys |
| PushRun.UploadFiles | apps/server/src/object-storage.ts:904-943 | exactly the files that need it are uploaded, in any order; the push fails exactly when an indexed object it asks about is missing |
| PushRun.CreateMarkers | apps/server/src/object-storage.ts:944-952 | a marker is written for each empty directory that has none |
| PushRun.KeysToDelete | apps/server/src/object-storage.ts:954-962 | the keys of all indexed paths the scan did not find |
| PushRun.PushDirectory | apps/server/src/object-storage.ts:670-997 | the whole push: objects, counts, fingerprint and pruned directory |
| PushLaws.CanPushIff | apps/server/src/object-storage.ts:904-930 | for any prefix: a push fails if and only if a file listed with the right size but not recorded with the right time has no object |
| PushLaws.UploadIff | apps/server/src/object-storage.ts:904-943 | for any prefix: a file goes up unless an entry of its size is listed and the manifest records, or the object carries, exactly its time |
| PushLaws.UploadCount | apps/server/src/object-storage.ts:904-943 | the reported uploads are the number of such files |
| PushLaws.DeletedCount | apps/server/src/object-storage.ts:954-968 | the reported deletions are the number of listed paths, the root aside, that the scan did not find |
| PushLaws.CreatedCount | apps/server/src/object-storage.ts:944-952 | the reported directories are the number of scanned empty directories without a listed marker |
| PushLaws.PushedAnywhere | apps/server/src/object-storage.ts:793-982 | the object of each scanned file after a push to any prefix: untouched when it passed for the file, else the file's bytes and time |
| PushLaws.PushedUnindexed | apps/server/src/object-storage.ts:793-982 | after a push to a prefix without a manifest every stamped file's object has its size and time |
| PushLaws.StaleRemoved | apps/server/src/object-storage.ts:954-968 | the object of a listed path that the scan did not find is gone after the push |
| PushLaws.MarkerMade | apps/server/src/object-storage.ts:944-952 | a scanned empty directory has its marker afterwards unless a manifest lists the marker and its object is missing |
| PushLaws.BundleDropped | apps/server/src/object-storage.ts:970-995 | the bundle object disappears exactly when the push reports a change |
| PushProofs.ObservedIndex | apps/server/src/object-storage.ts:793-811 | on a true index the manifest listing and the real listing give the same index, paged or not |
| PushProofs.UploadDecision | apps/server/src/object-storage.ts:904-943 | on a true index a file is uploaded if and only if its stamp is not the recorded one |
| PushProofs.DirectoryPlan | apps/server/src/object-storage.ts:944-962 | markers and deletions are the differences between record and scan |
| IndexProofs.TransferredKeys | apps/server/src/object-storage.ts:904-968 | the user objects after the transfer are those of the scan plus those stranded by a swap |
| RunProofs.PushFrame | apps/server/src/object-storage.ts:793-982 | whatever the prefix holds, a push touches only files and markers of paths it manages, reserved keys, and keys the stored manifest names as shards |
| RunProofs.PushedFile | apps/server/src/object-storage.ts:904-943 | the object of each scanned file: fresh when its stamp changed, untouched otherwise |
| RunProofs.ManifestAfterWrite | apps/server/src/object-storage-manifest.ts:252-318 | a reader of the written manifest sees the accepted entries that were asked for |
| RunProofs.PushedManifest | apps/server/src/object-storage.ts:970-976 | the manifest after a push records the stamped files and the empty directories, with tidy shards |
| IndexTheorems.PushKeepsIndex | apps/server/src/object-storage.ts:793-982 | a push of stamped files without swaps succeeds and keeps the index true |
| IndexTheorems.AgreesIff | apps/server/src/object-storage.ts:793-982 | after a push the manifest listing equals the stored user objects, sizes included, if and only if all files are stamped and no path swapped |
| SyncRuns.RunKeepsIndex | apps/server/src/object-storage.ts:793-982 | every lawful run from an unused prefix ends with a true index of the last directory |
| SyncRuns.RunAgreesIff | apps/server/src/object-storage.ts:793-982 | over every run the index agrees after each push if and only if the run is lawful |
| SyncRuns.BytesAfterIff | apps/server/src/object-storage.ts:904-943 | stored bytes are right after a push exactly when unchanged stamps mean unchanged bytes |
| SyncRuns.RunHoldsLast | apps/server/src/object-storage.ts:793-982 | after a lawful and faithful run the prefix holds the bytes of the last directory |
| SyncRuns.QuietIff | apps/server/src/object-storage.ts:904-982 | a push reports no change if and only if the directory is the recorded one |
| SyncRuns.QuietPushChangesNothing | apps/server/src/object-storage.ts:904-997 | such a push leaves every object, manifest and shards included, as it was |
| SyncRuns.PushTwice | apps/server/src/object-storage.ts:995-997 | repeating a push is quiet if and only if the first one pruned no empty directory |
| Cleaning.RemoveUnexpected | apps/server/src/object-storage-remote-to-local.ts:68-148 | the walk keeps exactly the anchored entries and those above them, and counts the removals |
| Cleaning.AliveThroughChild | apps/server/src/object-storage-remote-to-local.ts:89-144 | survival can be judged child by child while the walk deletes in place |
| Cleaning.ChildDirAlive | apps/server/src/object-storage-remote-to-local.ts:112-133 | a walked directory is kept if and only if the remote has it or something in it was kept |
| Pull.AddDirectoryWithParents | apps/server/src/object-storage-remote-to-local.ts:53-66 | adds a directory and everything above it |
| Pull.GatherRemote | apps/server/src/object-storage-remote-to-local.ts:260-289 | the loop over remote entries gathers files, markers and all parent directories |
| Pull.CreateDirectories | apps/server/src/object-storage-remote-to-local.ts:302-317 | creates all remote directories, replacing files in the way, and counts the new ones |
| Pull.SyncRemoteFile | apps/server/src/object-storage-remote-to-local.ts:344-410 | one file: kept when size and time match, downloaded otherwise, failed when the object is missing |
| Pull.SyncRemoteFiles | apps/server/src/object-storage-remote-to-local.ts:412-427 | all files in any order: resulting tree, download count and stamps |
| PullRun.PullDirectory | apps/server/src/object-storage-remote-to-local.ts:170-457 | the whole pull: tree, counts and fingerprint, or failure exactly when an object is missing |
| PullProofs.PullShape | apps/server/src/object-storage-remote-to-local.ts:260-427 | a pull leaves the preserved names unchanged and makes the rest exactly the remote files and the directories that hold them |
| PullProofs.SecondPullIff | apps/server/src/object-storage-remote-to-local.ts:68-148 | a second pull removes, creates and downloads nothing if and only if no remote directory has an ignored name |
| PullProofs.SettledAfter | apps/server/src/object-storage-remote-to-local.ts:344-410 | a file just materialised is recognised as up to date |
| PullLaws.FileAfterPull | apps/server/src/object-storage-remote-to-local.ts:344-410 | a file after a pull: kept when its size is the listed one and its time less than a millisecond from the recorded or stored one, else the stored bytes and time |
| PullLaws.DownloadsAre | apps/server/src/object-storage-remote-to-local.ts:344-410 | the downloads are the listed files without such a local file |
| PullLaws.DownloadedIff | apps/server/src/object-storage-remote-to-local.ts:236-410 | for any prefix: a listed file is downloaded unless the local tree has one of its size whose time is less than a millisecond from the one the manifest records or the object carries |
| PullLaws.RemovedCount | apps/server/src/object-storage-remote-to-local.ts:89-144 | the reported removals are the entries that go, a directory with an ignored name counting as one with all below it |
| PullLaws.PullScansAs | apps/server/src/object-storage-remote-to-local.ts:428-452 | after a pull of any prefix with visible paths a scan finds the pulled files and exactly the empty directories that go into the returned fingerprint |
| PullLaws.FirstPull | apps/server/src/object-storage-remote-to-local.ts:166-168 | pulling a pushed directory downloads exactly the files without a local file of the same size less than a millisecond from the whole-millisecond time, and keeps the others unchanged |
| PullLaws.PullIntoSource | apps/server/src/object-storage-remote-to-local.ts:344-410 | after any lawful run, a pull into the directory pushed last downloads nothing and leaves its files as they are, fractions of milliseconds included |
| RoundTrip.IndexedIsLayable | apps/server/src/object-storage-remote-to-local.ts:255-289 | a truly indexed prefix is read as exactly its record |
| RoundTrip.PullTwice | apps/server/src/object-storage-remote-to-local.ts:170-457 | the second-pull theorem for any prefix read by listing or through a manifest that tells the truth about the stored objects |
| RoundTrip.PullHeldTwice | apps/server/src/object-storage-remote-to-local.ts:170-457 | pulling a pushed directory twice: the second pull finds nothing to do |
| RoundTrip.PullGivesBack | apps/server/src/object-storage-remote-to-local.ts:255-457 | pulling a pushed directory into any local directory: resulting tree, scan and empty directories |
| RoundTrip.BytesGivenBackIff | apps/server/src/object-storage-remote-to-local.ts:356-385 | the pulled bytes are right exactly when a local file of equal size and time has equal bytes |
| RoundTrip.FingerprintGivenBackIff | apps/server/src/object-storage-remote-to-local.ts:166-168 | the pull returns the push's fingerprint exactly when no kept file is dated a fraction of a millisecond early |
| RoundTrip.PullAfterRun | apps/server/src/object-storage-remote-to-local.ts:170-457 | after any lawful run of pushes, a pull into an empty directory gives paths, bytes, truncated times, empty directories and fingerprint of the last one |
| LeaderElector.LeaseServer.PatchLease | apps/controller/src/leader-election.ts:496-525 | a patch is accepted only for the current resource version |
| LeaderElector.KubernetesLeaderElector.HandleGetResponse | apps/controller/src/leader-election.ts:451-494 | what an elector decides from the lease it read, with the expiry rule |
| LeaderElector.KubernetesLeaderElector.AcquireOrRenew | apps/controller/src/leader-election.ts:435-532 | an uninterrupted attempt: lease, verdict and status |
| LeaderElector.KubernetesLeaderElector.FinishTick | apps/controller/src/leader-election.ts:387-432 | belief, status, notification and delay after an attempt that succeeded, failed or threw |
| LeaderElector.UninterruptedTick | apps/controller/src/leader-election.ts:372-532 | an uninterrupted attempt of the object is a run of the protocol with the same lease and belief |
| Failover.TakesOverIff | apps/controller/src/leader-election.ts:535-555 | against another holder's lease, dated by its renew time or else its acquire time, a tick ends leading if and only if that time plus the duration has passed; the lease is then the elector's, else unchanged |
| Failover.HeldOrUnheld | apps/controller/src/leader-election.ts:535-552 | every other lease of someone else lacks a holder, a readable time or a duration |
| Failover.TakesUnheld | apps/controller/src/leader-election.ts:435-552 | without a lease, or with one of that kind, a tick always leads and writes a full lease |
| Failover.RenewsOwn | apps/controller/src/leader-election.ts:492-525 | the holder renews its own lease, run out or not, and keeps acquire time and transitions |
| Failover.NextHolderIsSafe | apps/controller/src/leader-election.ts:372-555 | after a won tick another elector wins if and only if the winner's own duration has passed since its tick began |
| LeaseProofs.WriteRespects | apps/controller/src/leader-election.ts:492-525 | an accepted write never takes the lease from an elector whose entitlement still runs |
| LeaseProofs.StepKeepsInv | apps/controller/src/leader-election.ts:372-532 | every step of the protocol, lost and late requests included, keeps the invariant |
| LeaseProofs.MutualExclusion | apps/controller/src/leader-election.ts:372-555 | in every reachable state at most one elector leads within its lease time, and the stored lease names it |
| LeaseProofs.NeverTwoLeaders | apps/controller/src/leader-election.ts:372-555 | if no leader outlives its lease time, two electors never lead at once |
| LeaseProofs.TransitionsCountHolders | apps/controller/src/leader-election.ts:508-516 | from an absent lease, the transition counter is one plus the number of holder changes in every run |
| Fleet.CountLoads | apps/controller/src/controller-placement.ts:634-644 | the load map of the worker references |
| Sandboxes.SummarizeSandboxFleet | apps/controller/src/controller-placement.ts:233-303 | the loops compute the sandbox count, the reserve and the clamped wish |
| Sandboxes.LoadedAreBurdened | apps/controller/src/controller-placement.ts:256-283 | the reserve counts the pressured workers on which some workspace with references weighs |
| Sandboxes.NoneUsesFewer | apps/controller/src/controller-placement.ts:284-298 | no lawful assignment of workspaces uses fewer sandboxes than the count |
| Sandboxes.OptimumIsReached | apps/controller/src/controller-placement.ts:284-298 | a lawful assignment with exactly that many sandboxes exists |
| Placement.BuildPlacementOperations | apps/controller/src/controller-placement.ts:606-929 | the three loops compute the plan, stably sorted by operation id, nothing lost or doubled |
| Placement.Examine | apps/controller/src/controller-placement.ts:770-860 | the first pass, case by case |
| PlacementProofs.SelectedIsEligible | apps/controller/src/controller-placement.ts:650-768 | the selected worker is healthy, not stopping and not excluded, whatever the scoring |
| PlacementProofs.PlanIsSound | apps/controller/src/controller-placement.ts:770-927 | every operation has its reason, aims at a fit worker, never at the owner, and rebalancing never at an overloaded worker |
| PlacementProofs.PlanOnePerWorkspace | apps/controller/src/controller-placement.ts:770-927 | with distinct workspace ids there is at most one operation per workspace |
| PlacementProofs.PlanLoadsCount | apps/controller/src/controller-placement.ts:784-927 | the scheduled loads count the emitted operations worker by worker |
| PlacementProofs.LeftAlone | apps/controller/src/controller-placement.ts:770-927 | evicted workspaces and those active on a healthy worker that stays get no operation |
| PlacementProofs.ReleasedIff | apps/controller/src/controller-placement.ts:796-848 | a workspace is released if and only if its owner is gone, draining, stopping, or late while it is not active |
| PlacementLaws.Assigned | apps/controller/src/controller-placement.ts:775-793 | a workspace without an owner that counts gets exactly one operation, an assignment to a usable worker, when there is one and the preference names none |
| PlacementLaws.AssignedIff | apps/controller/src/controller-placement.ts:775-793 | without a preference it is assigned if and only if a usable worker exists |
| PlacementLaws.NobodyToHintAt | apps/controller/src/controller-placement.ts:646-659 | without a usable worker the plan holds releases without a target only |
| PlacementLaws.LateIsHinted | apps/controller/src/controller-placement.ts:822-837 | an active workspace of a late owner gets exactly one operation, a hint to another usable worker, when there is one and the preference names none |
| PlacementLaws.SpreadIsConsolidated | apps/controller/src/controller-placement.ts:862-896 | an idle workspace of an owner on two workers gets exactly one operation, a consolidation, when the scoring never picks its own or its preferred worker |
| PlacementLaws.OverloadIsRebalanced | apps/controller/src/controller-placement.ts:898-927 | an idle workspace on a worker whose loads sum to more than the capacity gets exactly one operation, a hint to a worker with room, when its owner is not spread, there is one and the preference names none |
| Scaling.ReplicaController.Evaluate | apps/controller/src/controller.ts:498-565 | one evaluation: decision and new streaks and times |
| Scaling.DecisionIsSuggestedOrCurrent | apps/controller/src/controller.ts:516-558 | a decision is the suggestion or the current count, and above the latter only by a recorded scale-up |
| Scaling.StreakMeans | apps/controller/src/controller.ts:498-514 | a streak of at least m means the last m evaluations pointed that way |
| Scaling.ScaleUpNeedsStreak | apps/controller/src/controller.ts:532-545 | an interval scale-up needs the sample size of consecutive higher suggestions |
| Scaling.ScaleUpsApart | apps/controller/src/controller.ts:539-544 | interval scale-ups of any run are at least the cooldown apart |
| Scaling.ScaleDownIsGuarded | apps/controller/src/controller.ts:547-555 | a recorded scale-down had the streak, the gate and the cooldown since every earlier change |
| Scaling.ScalesBelowIff | apps/controller/src/controller.ts:547-557 | exactly when an interval decision goes below the current count |
| Scaling.UngatedScaleDown | apps/controller/src/controller.ts:557 | a first low suggestion scales down with the gate closed when the sample size is above one |
| ScalingLaws.ScalesAboveIff | apps/controller/src/controller.ts:532-545 | an interval decision exceeds the current count, and is then the suggestion, if and only if the sample size of evaluations suggested more and every earlier scale-up has cooled down |
| ScalingLaws.ScalesDownIff | apps/controller/src/controller.ts:547-557 | it falls below if and only if less is suggested and the streak is short, or it is full, the gate open and every earlier change cooled down |
| ScalingLaws.StartupDecides | apps/controller/src/controller.ts:516-531 | at startup the suggestion is taken at once unless a full streak meets a closed gate |
| Scaling.LogStaysBounded | apps/controller/src/controller-rebalance-state.ts:17-37 | the decision log stays short, never repeats itself and ends with the newest decision |
| Scaling.LogIsLastChanges | apps/controller/src/controller-rebalance-state.ts:17-37 | the log is the last changes of content among the decisions |
| Keyset.HoldsExtend | apps/server/src/storage-admin-postgres.ts:241-253 | appended parameters do not change numbered conditions |
| Keyset.BuildKeysetWhere | apps/server/src/storage-admin-postgres.ts:224-259 | the nested loops compile a condition that means "past the cursor column by column", for any earlier parameters; a wrong shape is refused |
| TablePages.PastIff | apps/server/src/storage-admin-postgres.ts:224-259 | the condition selects the rows after the cursor whose first difference is between two values |
| TablePages.PastIsStrictlyAfter | apps/server/src/storage-admin-postgres.ts:224-259 | without nulls it is "strictly after the cursor" in the ORDER BY |
| TablePages.AfterRowIff | apps/server/src/storage-admin-postgres.ts:224-259 | selecting past a row of the ordered table gives the rows behind it if and only if none of them lies behind a null |
| TablePages.ListTable | apps/server/src/storage-admin.ts:532-617 | refusals, filters, full-row search, page, row count and next cursor of a request |
| PageLaws.RefusedIff | apps/server/src/storage-admin.ts:537-583 | exactly which requests are refused as too deep, as a forbidden search, or for their cursor |
| PageLaws.OffsetPage | apps/server/src/storage-admin.ts:532-617 | a page by offset: the k-th row is the fitting row with offset plus k fitting rows before it, and count, length and next cursor follow from the number of fitting rows |
| CursorWalk.PastTransitive | apps/server/src/storage-admin-postgres.ts:224-259 | a row missed by one cursor is missed by every cursor reached from it |
| CursorWalk.EndsIff | apps/server/src/storage-admin.ts:599-617 | following the next cursors ends if and only if the first cursor is not needed or holds a value |
| CursorWalk.ListsAllIff | apps/server/src/storage-admin.ts:532-617 | it lists the filtered table in order, each row once, if and only if at every page break the rows behind differ from the last row of the page in values |
| CursorWalk.FollowPages | apps/server/src/storage-admin.ts:532-617 | the loop that follows the cursors returns what the walk lists |
| CursorWalk.NonNullListed | apps/server/src/storage-admin.ts:532-617 | without nulls among the sort values everything is listed |
| CursorWalk.NullsAreMissed | apps/server/src/storage-admin-postgres.ts:48-55 | with a nullable first column and pages of one row the second row is lost |
| Bundle.ArchiveDatabase.InsertArchiveRows | native/oah-archive-export/src/rows.rs:25-84 | the batch loops write the manifest and all rows or fail |
| Bundle.ArchiveDatabase.InsertOne | native/oah-archive-export/src/rows.rs:147-363 | one upsert: the columns of the row, or a failure that writes nothing |
| BundleContents.WritesIff | native/oah-archive-export/src/rows.rs:25-363 | the batch writer succeeds if and only if every archive has its fields, its eight arrays and in them only complete rows |
| BundleContents.BundleHolds | native/oah-archive-export/src/rows.rs:25-363 | a committed bundle holds a row for exactly the keys sent with the fields of the last row sent under each, the archives likewise, and one manifest row with the first time zone and the count |
| BundleContents.SentIff | native/oah-archive-export/src/rows.rs:43-80 | the rows sent are those of the eight arrays of the archives |
| BundleContents.NothingIsLost | native/oah-archive-export/src/rows.rs:43-80 | when no key is sent twice every row is stored with its fields |
| BundleWorker.Worker.Handle | native/oah-archive-export/src/bundle_writer.rs:254-382 | one line of the worker protocol |
| BundleWorker.Worker.Serve | native/oah-archive-export/src/bundle_writer.rs:248-393 | the loop over the lines, with the error for a request open at the end of the input |
| BundleProofs.HeadSuffices | apps/server/src/native-archive-export.ts:591-605 | the archive record without its arrays is stored like the whole archive |
| BundleProofs.StreamEqualsBatch | native/oah-archive-export/src/bundle_writer.rs:276-350 | streaming archives stores what the batch writer stores, count and time zone included; both fail together |
| WorkerProofs.WriteBundleStream | native/oah-archive-export/src/bundle_writer.rs:395-516 | the headed stream reader, line by line |
| WorkerProofs.HeadedStreamEqualsBatch | native/oah-archive-export/src/bundle_writer.rs:395-516 | the headed stream stores what the batch writer stores |
| WorkerProofs.EveryResponseAnswered | native/oah-archive-export/src/bundle_writer.rs:248-393 | on any line stream each response belongs to one delimited request and commits exactly its rows |
| WorkerProofs.FeedHasHistory | native/oah-archive-export/src/bundle_writer.rs:248-393 | until an error, open request and files are explained by the lines read |
| WorkerProofs.CommitsNothingIff | native/oah-archive-export/src/bundle_writer.rs:310-381 | a request commits nothing if and only if one of its rows is bad |
| WorkerProofs.AbandonedCommitsNothing | native/oah-archive-export/src/bundle_writer.rs:274-308 | an abandoned request stops the worker at the next boundary without committing |
| WorkerProofs.OpenFileIsEmpty | native/oah-archive-export/src/bundle_writer.rs:518-550 | while a request is open its output file holds no row |
| WorkerProofs.WorkerRefinesBatch | apps/server/src/native-archive-export.ts:452-510 | queued requests each get the batch writer's result, in order, whether or not others fail |
| Multipart.UploadStream | apps/server/src/object-storage-s3.ts:328-343 | parts concatenate to the stream, are numbered from 1, full but for the last, and as few as possible |
| Multipart.CutParts | apps/server/src/object-storage-s3.ts:333-338 | the inner loop cuts full parts and leaves less than one |
| Chunked.DecodeChunkedBytes | native/oah-compose-scaler/src/main.rs:615-652 | the buffer decoder computes the decoding and never indexes outside the buffer |
| Chunked.ByteStream.ReadCrlfLine | native/oah-compose-scaler/src/main.rs:279-295 | a line of at most 8 KB, ended by the first CRLF |
| Chunked.ByteStream.ReadChunkedBody | native/oah-compose-scaler/src/main.rs:239-277 | the stream decoder with its limits and trailers |
| ChunkedProofs.SizeRoundTrip | native/oah-compose-scaler/src/main.rs:623-631 | a hexadecimal size with an optional extension is read back |
| ChunkedProofs.RoundTrip | native/oah-compose-scaler/src/main.rs:615-652 | decoding an encoded body gives the data of its chunks, section 7.1 of RFC 9112 |
| ChunkedProofs.HttpRoundTrip | native/oah-compose-scaler/src/main.rs:615-652 | the same for data framed with hexadecimal sizes and any extensions |
| ChunkedProofs.StreamRoundTrip | native/oah-compose-scaler/src/main.rs:239-277 | a body of at most 1 MB with lines of at most 8 KB and a terminated trailer is read back by the stream decoder |
| ChunkedProofs.DecodersAgree | native/oah-compose-scaler/src/main.rs:239-277 | the stream decoder reads exactly what the buffer decoder decodes within its limits, and fails outside them |
| ChunkedLaws.DecodesIff | native/oah-compose-scaler/src/main.rs:615-652 | the buffer decoder gives some data if and only if the bytes are an encoded body that holds it |
| ChunkedLaws.ReadsIff | native/oah-compose-scaler/src/main.rs:239-277 | the stream decoder does so exactly for bodies of short lines, at most 1 MB of data and a terminated trailer |
| ChunkedLaws.SizeIs | native/oah-compose-scaler/src/main.rs:623-631 | white space, a plus, leading zeros, the case of digits and extensions do not change a size, and one beyond 64 bits is refused |
| WorkerPool.ItemQueue.Claim | apps/server/src/object-storage-sync-utils.ts:14-19 | the synchronous head of a worker claims the next index |
| WorkerPool.EveryRun | apps/server/src/object-storage-sync-utils.ts:1-25 | in every interleaving items start once each in order and never more than the limit are in flight |
| WorkerPool.ReturnsWhenDone | apps/server/src/object-storage-sync-utils.ts:11-24 | when all workers have returned every item ran and completed exactly once |
| WorkerPool.NeverStuck | apps/server/src/object-storage-sync-utils.ts:11-24 | until then some worker can move |
| Pruning.ExportDirectory.Prune | apps/server/src/workspace-archive-export-files.ts:87-166 | what is left, and counts and bytes equal to what disappeared |
| Pruning.OnlyExpiredRemoved | apps/server/src/workspace-archive-export-files.ts:109-159 | only dated bundle and checksum files before the cutoff disappear |
| Pruning.FirstBundlesGo | apps/server/src/workspace-archive-export-files.ts:109-117 | at most `limit` bundles go, the first in order, and all of them when there are fewer |
| Pruning.OldestBundlesGo | apps/server/src/workspace-archive-export-files.ts:109-117 | under an order that follows the dates the bundles that go are older than every expired bundle that stays |
| Pruning.PairsSurvive | apps/server/src/workspace-archive-export-files.ts:139-159 | a surviving bundle keeps its checksum |
| PruneLaws.BundlesGone | apps/server/src/workspace-archive-export-files.ts:109-138 | as many expired bundles go as there are or the limit allows, each with its checksum |
| PruneLaws.OrphansGone | apps/server/src/workspace-archive-export-files.ts:140-159 | as many expired checksums without a removed bundle go as there are or the rest of the limit allows |
| PruneLaws.ThrowsIff | apps/server/src/workspace-archive-export-files.ts:125-138 | pruning throws if and only if a bundle that would go has a directory in place of its checksum |

## Left out

- Native sync (`object-storage-native-sync.ts`, `oah-workspace-sync`): the branch without it is modelled.
- Tar bundles and manifests in bundle mode: bundles are switched off, so a push that changed something only deletes the bundle object; pulls require a manifest in objects mode.
- JSON text, base64 and hashing: documents and cursors are values, a fingerprint is the hashed text.
- Manifests that list unnormalised or duplicate paths or shard names that are empty or not strings.
- ManifestProofs.WriteThenLoad: does not model a root file named `__proto__`, which a sharded manifest loses on load because merging shards assigns it as a property; the run theorems inherit this.
- TornShards.AtomicIff: takes old shards cut with the same shard size as the new ones, because the size is one setting of a deployment.
- PullRun.PullDirectory: takes prefixes in which no path is wanted both as a file and as a directory, because the outcome then depends on worker order, and manifests in objects mode.
- Keys whose path has empty, "." or ".." segments, and host path separators other than "/"; the prefix is assumed normalised.
- Symbolic links and other entries that are neither files nor directories; files that change or vanish during a push; concurrent pushers.
- Interleaving of the upload and download workers inside one sync; their effects are on different keys and paths, so any order is allowed instead.
- Sync budgets, stores without object information, and the sizes of manifest objects in listings.
- Leader election: `close` racing a tick, clocks that differ between electors, leases without a resource version, and the renew and retry timers, which only appear as the hypothesis that a tick finishes in time.
- Different strings that `localeCompare` calls equal.
- The affinity scores, resource metrics and reasons of placement operations: the choice among candidates is an arbitrary function.
- Controller recommendations, messages, log formatting and the reconciliation of the scale target.
- Sort values finer than the milliseconds a cursor keeps, text forms of cursors, and the column list of a page; `ListTable` is given the table in its ORDER BY.
- SQLite itself beyond "insert or replace" by primary key; failures to open, commit or write files; the routing of worker responses to waiting callers and the 64 KB write buffer.
- Multipart upload of an empty stream, retries and abort; part sizes are positive.
- Chunked.DecodeChunkedBytes: uses unbounded integers for positions; a size within two of 2^64, where one unchecked addition of the source overflows, is a malformed chunk here.
- Worker pools in which a worker fails.
- Pruning with concurrent deletion, and a missing export directory, which prunes nothing.
