# OpenGuard protocol and codec proofs

Machine-checked models of the parts of OpenGuard where a small mistake is expensive: the state
machines, crash-prone protocols, worklist algorithms and codecs below the Windows calls. Each
module follows one component and proves what the component promises for every input, every run
or every interleaving. `dafny verify dfyconfig.toml` checks the whole project.

| module | component | main result |
|---|---|---|
| `BehaviorChain` | behaviour-chain engine | pruning, ring, cooldown and eviction refine an append-only log; alerts over whole runs are exact |
| `Json`, `CanonicalManifest` | canonical manifest encoder | the signed bytes determine the manifest up to key order, and depend on nothing else |
| `EtwLines` | ETW helper and its reader | any sequence of events survives escaping, printing, line splitting and parsing |
| `ContentPaths`, `StagedPublish` | security-content installer | all or nothing under any interleaving of installers, failures and crashes |
| `Quarantine` | quarantine and restore | the scanned bytes exist complete in every state of every run |
| `TemporaryBlocks` | temporary firewall rules | a restored record's rule is gone, nothing expires early, records restore once |
| `ProcessTree` | process-tree termination | exact reachability on any parent relation; children end before parents |
| `Timeline` | cursor paging | complete and duplicate-free while rows are added and pruned between pages |
| `DnsResolver` | reverse-lookup queue | `pending` is always the disjoint union of what callers, channel and worker hold |
| `FileMonitor` | gap reconciliation | a full report replays to the new baseline; gaps stay pending until reconciled |
| `ViewModel` | list synchronisation | exactly the target, by moves, insertions and tail removals only; exact membership |
| `IpcFraming` | length-prefixed frames | round trip, no value from a prefix, only frames are accepted |
| `BeaconCounter` | beacon correlation | saturating counters refine the whole observation history |
| `ScanJobs` | scan worker and job table | forward-only status, exact findings, bounded table |
| `ExecutableBaseline` | new-executable flags | flagged exactly at the first occurrence in the history |

How the source is rendered. Code that changes state in place is a class or a method with loops,
proved against a specification function; protocols whose steps interleave, fail or crash are state
machines `Apply(state, step)` with one lemma per invariant and theorems over all runs `Run(steps)`.
Clocks are nondecreasing naturals, SHA-256 and the JSON codec of IPC messages are arbitrary
functions, tables are sequences or maps with increasing identifiers, and the iteration order of a
hash map is arbitrary. JSON is section 7 of RFC 8259 for strings, with decimal integers.

What the proofs found, with the code followed in each case:

- Staged publishing: the duplicate check compares paths in lower case, but before `\` becomes `/`, and
  the file system may take still other names for one. A manifest can therefore name one file twice, and
  a version lacking a declared file is published (`StagedPublish.SeparatorCollision`, `LetterCollision`).
  `AgreementExact` is the exact condition on every file system, `PlainAgrees` a simple way to meet it.
- File monitor: the documentation of `drain` says at most `limit` records. `FileMonitor.LimitExact` states
  for every limit exactly when more are returned, and `DrainsTwo` is a case.
- Quarantine: the ignored failure of the compensating delete can leave a record without a payload;
  `Quarantine.UnrestoredHasPayload` says exactly when. The content itself is never lost.
- Scan jobs: a job is entered in the table before its token is duplicated and its thread started. An
  entry whose start failed is never ended or pruned (`ScanJobs.FailedStartStays`), so 128 failed starts
  leave a service that refuses every scan until it restarts (`ScanJobs.ExhaustedForGood`).

## Model

| member | source | states |
|---|---|---|
| `BehaviorChain.BehaviorChainEngine.IngestAt` | crates/openguard-service/src/behavior_chain.rs:103-152 | one call keeps the engine a refinement of the append-only log: the calls so far form a legal run, the maps are what the log says, at most 4,096 chains are held, and the alerts returned are exactly those the log gained |
| `BehaviorChain.BehaviorChainEngine.Prune` | crates/openguard-service/src/behavior_chain.rs:154-163 | dropping stale signals and expired cooldowns changes no answer the log gives |
| `BehaviorChain.BehaviorChainEngine.RecordSighting` | crates/openguard-service/src/behavior_chain.rs:113-135 | the stored chain becomes what the log specifies for its process: newest 32 signals of the last ten minutes, newest known pid and image |
| `BehaviorChain.BehaviorChainEngine.PushBack` | crates/openguard-service/src/behavior_chain.rs:127-135 | push and pop leave the newest 32 signals |
| `BehaviorChain.BehaviorChainEngine.RaiseRule` | crates/openguard-service/src/behavior_chain.rs:138-147 | an alert is raised unless one for the pair was raised less than an hour ago since the last eviction |
| `BehaviorChain.BehaviorChainEngine.RaiseRules` | crates/openguard-service/src/behavior_chain.rs:137-148 | the loop over matching rules raises exactly what the log specifies, in order |
| `BehaviorChain.BehaviorChainEngine.IngestOne` | crates/openguard-service/src/behavior_chain.rs:106-149 | one event advances the log by one observation and its alerts; unclassified or unidentified events change nothing |
| `BehaviorChain.BehaviorChainEngine.IngestEvents` | crates/openguard-service/src/behavior_chain.rs:105-149 | a batch advances the log event by event |
| `BehaviorChain.BehaviorChainEngine.EvictOldest` | crates/openguard-service/src/behavior_chain.rs:167-176 | the chain removed is one of the least recently seen, and its cooldowns go with it |
| `BehaviorChain.BehaviorChainEngine.EnforceCapacity` | crates/openguard-service/src/behavior_chain.rs:165-178 | evictions happen only above 4,096 chains, oldest first, and stop at 4,096 |
| `BehaviorChain.MatchingRulesExact` | crates/openguard-service/src/behavior_chain.rs:212-225 | a rule fires if and only if every signal kind it requires is in the chain |
| `BehaviorChain.ObserveExact` | crates/openguard-service/src/behavior_chain.rs:137-148 | one event raises a rule if and only if the chain it leaves satisfies the rule and no cooldown is running |
| `BehaviorChain.RunAudited` | crates/openguard-service/src/behavior_chain.rs:103-152 | over whole runs every alert is justified at its point of the log, and every satisfied rule was raised then or was cooling down |
| `BehaviorChain.AlertSpacing` | crates/openguard-service/src/behavior_chain.rs:137-147 | two alerts of one rule for one process are an hour apart or separated by an eviction |
| `BehaviorChain.AlertEvidence` | crates/openguard-service/src/behavior_chain.rs:154-160 | every alert rests on each required kind of signal, sighted within ten minutes and since the last eviction |
| `BehaviorChain.RunSparesRecent` | crates/openguard-service/src/behavior_chain.rs:165-178 | in every call of every run each eviction happens above 4,096 chains, no chain is evicted twice, and no survivor was seen less recently than an evicted chain |
| `Json.RoundTrip` | crates/openguard-updates/src/lib.rs:345-382 | a printed value followed by any delimiter parses back to that value and stops there, so the encoding is uniquely decodable |
| `Json.CharsRoundTrip` | native/etw-helper/openguard_etw.cpp:143-164 | unescaping by section 7 of RFC 8259 gives back any byte string and stops at the closing quote, so the escaped text holds no bare quote |
| `Json.NumberRoundTrip` | crates/openguard-updates/src/lib.rs:348-350 | decimal integers parse back, and no digit of what follows is swallowed |
| `CanonicalManifest.Write` | crates/openguard-updates/src/lib.rs:346-378 | the recursive writer appends exactly the canonical text of the value to the buffer |
| `CanonicalManifest.WriteItems` | crates/openguard-updates/src/lib.rs:351-360 | the array loop appends items separated by commas |
| `CanonicalManifest.WriteMembers` | crates/openguard-updates/src/lib.rs:361-375 | the object loop appends members in key order, each looked up under its key |
| `CanonicalManifest.CanonicalManifestBytes` | crates/openguard-updates/src/lib.rs:345-382 | the bytes signed are the print of the canonical value |
| `CanonicalManifest.SortSorts` | crates/openguard-updates/src/lib.rs:363-364 | sorting the keys keeps the mapping and orders it strictly |
| `CanonicalManifest.SortedUnique` | crates/openguard-updates/src/lib.rs:363-364 | a mapping has only one sorted member list |
| `CanonicalManifest.CanonicalMeaning` | crates/openguard-updates/src/lib.rs:345-382 | canonicalising changes no meaning at any depth |
| `CanonicalManifest.SameCanonical` | crates/openguard-updates/src/lib.rs:345-382 | values that differ only in key order, at any depth, have one canonical form |
| `CanonicalManifest.CanonicalBytesExact` | crates/openguard-updates/src/lib.rs:345-382 | equal bytes if and only if equal meaning |
| `CanonicalManifest.SignedPayloadExact` | crates/openguard-updates/src/lib.rs:183-199 | two manifests have the same signed bytes if and only if they agree on every member but the signature |
| `EtwLines.JsonEscape` | native/etw-helper/openguard_etw.cpp:143-164 | the escaping loop computes the RFC 8259 escape of its input, with no byte below 0x20 |
| `EtwLines.OnEvent` | native/etw-helper/openguard_etw.cpp:166-182 | the line printed is the JSON object of the event |
| `EtwLines.PrintPrintable` | native/etw-helper/openguard_etw.cpp:143-182 | no printed value holds a control byte, so no line breaks early |
| `EtwLines.LineRoundTrip` | crates/openguard-service/src/main.rs:381-403 | the reader makes of a printed line exactly the event it was printed from |
| `EtwLines.ReadEvents` | crates/openguard-service/src/main.rs:380-403 | the reading loop yields the events of the lines in order, skipping the rest |
| `EtwLines.StreamRoundTrip` | crates/openguard-service/src/main.rs:380-403 | any sequence of printed events, split at newlines and parsed, yields the same events in order |
| `ContentPaths.TargetInside` | crates/openguard-updates/src/lib.rs:309-331 | an accepted path stays inside its directory and names the reputation file or a file below `rules` |
| `ContentPaths.RuleFileAccepted` | crates/openguard-updates/src/lib.rs:318-330 | every plain rule file name below `rules/` is accepted |
| `ContentPaths.PlainTargets` | crates/openguard-updates/src/lib.rs:279-283 | paths with forward slashes and no empty or dot component have the same components only when they are equal but for ASCII case |
| `ContentPaths.SeparatorFolded` | crates/openguard-updates/src/lib.rs:279-310 | two spellings of a separator name one file but pass the duplicate check |
| `StagedPublish.ValidateManifestFields` | crates/openguard-updates/src/lib.rs:255-287 | accepted if and only if schema, version, paths, URLs, sizes and digests are valid and no two paths agree in lower case |
| `StagedPublish.ContentStore.StageFiles` | crates/openguard-updates/src/lib.rs:148-159 | the staging loop succeeds exactly when no file needs a directory where another file is, and every file was fetched with the declared size and digest and written; the directory then holds exactly them |
| `StagedPublish.ContentStore.StageOne` | crates/openguard-updates/src/lib.rs:149-158 | one turn succeeds exactly when the bytes are as declared and their write succeeds, and touches no other directory |
| `StagedPublish.ContentStore.ValidateInstalled` | crates/openguard-updates/src/lib.rs:398-404 | an existing version passes if and only if it holds every declared file and is usable |
| `StagedPublish.ContentStore.Publish` | crates/openguard-updates/src/lib.rs:147-166 | staging, checking, recording and renaming succeed if and only if each part does; on an error nothing was published |
| `StagedPublish.ContentStore.Find` | crates/openguard-updates/src/lib.rs:138-142 | an existing version is accepted if and only if it is readable, holds every declared file and is usable |
| `StagedPublish.ContentStore.CheckAndRecord` | crates/openguard-updates/src/lib.rs:161-162 | the manifest joins the filled directory only after it was found usable |
| `StagedPublish.ContentStore.Activate` | crates/openguard-updates/src/lib.rs:163-164 | a rename succeeds unless it fails or meets a directory with content; it moves the staging directory to its version unchanged, or leaves every directory as it was |
| `StagedPublish.ContentStore.InstallWithFetcher` | crates/openguard-updates/src/lib.rs:131-171 | a whole installation is a run of the protocol; it succeeds if and only if everything it depends on does, with the resulting directories stated, and otherwise leaves the published set unchanged |
| `StagedPublish.RunKeeps` | crates/openguard-updates/src/lib.rs:131-171 | every step of every interleaving of installers, with failures and crashes, keeps the protocol invariant |
| `StagedPublish.PublishedComplete` | crates/openguard-updates/src/lib.rs:131-171 | a published version carries its manifest and holds every declared file if and only if entries for one file agree, whatever names the file system identifies; always, when the paths are plain and the file system tells them apart |
| `StagedPublish.PublishedStays` | crates/openguard-updates/src/lib.rs:138-170 | what is published stays published and unaltered to the end of the run |
| `StagedPublish.OnlyRenamePublishes` | crates/openguard-updates/src/lib.rs:163-164 | the published set grows only by a rename that makes its installer succeed, by one new name |
| `StagedPublish.UnfinishedPublishesNothing` | crates/openguard-updates/src/lib.rs:167-170 | an installer that has not succeeded has published nothing |
| `StagedPublish.InstalledServes` | crates/openguard-updates/src/lib.rs:138-142 | success means the version is published with the declared content, whoever published it |
| `StagedPublish.AgreementExact` | crates/openguard-updates/src/lib.rs:384-404 | the exact condition, on every file system: all declared files are held if and only if entries naming one file declare the same size and digest |
| `StagedPublish.PlainAgrees` | crates/openguard-updates/src/lib.rs:279-283 | a valid manifest of plain paths that the file system tells apart meets that condition |
| `StagedPublish.SomeRunPublishes` | crates/openguard-updates/src/lib.rs:131-171 | any acceptable manifest with honest content, none of its files where another needs a directory, can be published |
| `StagedPublish.SeparatorsCollide` | crates/openguard-updates/src/lib.rs:279-283 | on every file system, writing one separator of an accepted path the other way passes the duplicate check and names the same file |
| `StagedPublish.CollidingEntries` | crates/openguard-updates/src/lib.rs:255-287 | a manifest of two paths the check tells apart and the file system does not is valid, and no directory can hold it |
| `StagedPublish.CollisionPublished` | crates/openguard-updates/src/lib.rs:131-171 | for two such paths and any two contents of different size, the second usable, a run publishes a version lacking a declared file |
| `StagedPublish.SeparatorCollision` | crates/openguard-updates/src/lib.rs:279-283 | concretely, `rules/a.yar` and the same path with a backslash |
| `StagedPublish.LetterCollision` | crates/openguard-updates/src/lib.rs:279-283 | and, where the file system ignores the case of a letter beyond ASCII, two plain paths that differ in that letter only |
| `Quarantine.HashCopy` | crates/openguard-service/src/main.rs:3159-3173 | whatever the chunking, success copies the rest of the source and returns the digest of exactly those bytes |
| `Quarantine.WriteQuarantinePayload` | crates/openguard-service/src/main.rs:3105-3128 | success leaves the magic header followed by the source and returns the digest of the source |
| `Quarantine.RestoreQuarantinePayload` | crates/openguard-service/src/main.rs:3130-3157 | success writes exactly what follows the header; a wrong header writes nothing |
| `Quarantine.QuarantineThenRestore` | crates/openguard-service/src/main.rs:3105-3173 | quarantine then restore returns the same bytes |
| `Quarantine.RunKeeps` | crates/openguard-service/src/main.rs:2687-2818 | every step, failure and crash keeps the quarantine invariant |
| `Quarantine.ContentSurvives` | crates/openguard-service/src/main.rs:2687-2818 | in every state of every run the scanned bytes exist complete somewhere |
| `Quarantine.NeverOverwrites` | crates/openguard-service/src/main.rs:3143-3151 | no step overwrites or deletes a file outside quarantine except a verified original or the destination this restore created |
| `Quarantine.RestoredExactly` | crates/openguard-service/src/main.rs:2785-2812 | a record becomes restored only when its destination holds exactly the scanned bytes |
| `Quarantine.UnrestoredHasPayload` | crates/openguard-service/src/main.rs:2730-2751 | in every run an unrestored record has its complete payload if and only if the payload was not deleted after the compensating delete of the record had failed |
| `Quarantine.OrphanedRecord` | crates/openguard-service/src/main.rs:2743-2746 | the exception is reachable: a run that ends with a record and no payload |
| `TemporaryBlocks.RunKeeps` | crates/openguard-service/src/main.rs:2233-2299 | every interleaving of block, unblock, expiry, crash and recovery keeps the protocol invariant |
| `TemporaryBlocks.BlocksAreSafe` | crates/openguard-service/src/main.rs:3280-3318 | a restored record's rule is gone, each record is restored at most once, no timer removes a rule before its recorded expiry, and clients remove only their own |
| `TemporaryBlocks.CleanupIsPending` | crates/openguard-service/src/main.rs:3260-3278 | while the service is up an active record has its cleanup pending, unless a cleanup step failed |
| `TemporaryBlocks.UnrecordedRules` | crates/openguard-service/src/main.rs:2245-2265 | a rule without a record is one whose block was cut short before the record was written |
| `TemporaryBlocks.HistoryIsFinal` | crates/openguard-storage/src/lib.rs:839-850 | records are never lost or rewritten, and a restored record stays restored at its first time |
| `ProcessTree.Snapshot` | crates/openguard-windows/src/response.rs:141-147 | exactly the first 65,536 entries of the enumeration, or all of them |
| `ProcessTree.Expand` | crates/openguard-windows/src/response.rs:153-161 | one popped parent adds exactly its unvisited children, unless the cap stops it |
| `ProcessTree.Descendants` | crates/openguard-windows/src/response.rs:149-165 | no duplicates, no root, only reachable processes, and below the cap exactly the reachable ones, on any parent relation |
| `ProcessTree.TerminateDescendants` | crates/openguard-windows/src/response.rs:167-178 | the loop terminates, in reverse order of discovery, exactly what can be controlled, and counts the rest |
| `ProcessTree.TerminateProcessTree` | crates/openguard-windows/src/response.rs:127-189 | nothing is terminated unless the root is the expected process and the enumeration succeeds; then the reachable descendants and the root, children before parents among those terminated, the root last, and an error exactly when the root cannot be terminated |
| `ProcessTree.ChildrenFirst` | crates/openguard-windows/src/response.rs:167-180 | with or without the cap, every descendant precedes its parent and the root |
| `ProcessTree.ControlledOrder` | crates/openguard-windows/src/response.rs:169-178 | skipping processes never reorders the others |
| `ProcessTree.TerminationOrder` | crates/openguard-windows/src/response.rs:167-180 | so among the processes actually terminated every child comes before its parent |
| `Timeline.TimelineTable.RecordTimeline` | crates/openguard-storage/src/lib.rs:513-521 | a row is appended under the next identifier |
| `Timeline.TimelineTable.PruneEventHistory` | crates/openguard-storage/src/lib.rs:531-548 | exactly the newest rows stay, at least one |
| `Timeline.TimelinePage` | crates/openguard-storage/src/lib.rs:555-605 | the query computes the page specified: one extra row is fetched and dropped |
| `Timeline.SelectExact` | crates/openguard-storage/src/lib.rs:568-579 | the selection is exactly the matching rows below the cursor, newest first |
| `Timeline.PageExact` | crates/openguard-storage/src/lib.rs:591-604 | what a page leaves out is below its cursor; no cursor means nothing is left out |
| `Timeline.WalkSound` | crates/openguard-storage/src/lib.rs:555-605 | following the cursor over a changing table returns strictly decreasing matching rows, none inserted after the first page |
| `Timeline.WalkReturns` | crates/openguard-storage/src/lib.rs:555-605 | every matching row present throughout the walk is returned |
| `Timeline.StaticWalk` | crates/openguard-storage/src/lib.rs:555-605 | with no changes the pages together are the whole filtered list |
| `DnsResolver.StepPartitioned` | crates/openguard-windows/src/lib.rs:493-572 | every step keeps `pending` the disjoint union of what callers, the channel and the worker hold |
| `DnsResolver.RunKeeps` | crates/openguard-windows/src/lib.rs:493-572 | that invariant holds in every state of every run |
| `DnsResolver.PendingBounded` | crates/openguard-windows/src/lib.rs:498-498 | no address is queued twice, and at most 256 + callers + 1 are pending |
| `DnsResolver.CachedBeforeReleased` | crates/openguard-windows/src/lib.rs:504-520 | an address leaves `pending` only after a refused send or after the worker cached it |
| `DnsResolver.AnswersAreResolved` | crates/openguard-windows/src/lib.rs:547-559 | a cached answer comes from a completed lookup of that address |
| `FileMonitor.Monitor.Reconcile` | crates/openguard-windows/src/file_monitor.rs:191-231 | the baseline becomes the enumeration and the first `limit` differences are reported, for any visiting order |
| `FileMonitor.Monitor.ReportChanges` | crates/openguard-windows/src/file_monitor.rs:194-211 | the first loop reports created and modified paths up to the limit |
| `FileMonitor.Monitor.ReportRemovals` | crates/openguard-windows/src/file_monitor.rs:212-228 | the second loop adds removed paths up to the limit |
| `FileMonitor.Monitor.AdoptBaseline` | crates/openguard-windows/src/file_monitor.rs:150-157 | the worker's baseline is taken once, with the events drained before it applied |
| `FileMonitor.Monitor.Settle` | crates/openguard-windows/src/file_monitor.rs:169-179 | a batch is reconciled, applied or kept for later; the records returned, and when they exceed the limit, for every limit |
| `FileMonitor.Monitor.Drain` | crates/openguard-windows/src/file_monitor.rs:142-189 | the whole new state and the records returned as functions of the state before the call, and exactly when there are more than `limit` of them |
| `FileMonitor.LimitExact` | crates/openguard-windows/src/file_monitor.rs:142-171 | more than `limit` records are returned if and only if a record is drained at limit 0, or a full batch precedes a reconciliation whose first visited path differs |
| `FileMonitor.DrainsTwo` | crates/openguard-windows/src/file_monitor.rs:142-189 | a drain of limit 1 that returns two records |
| `FileMonitor.DifferenceExact` | crates/openguard-windows/src/file_monitor.rs:191-231 | one event per differing path, each with the right action, whatever the visiting order |
| `FileMonitor.DifferenceReplays` | crates/openguard-windows/src/file_monitor.rs:191-231 | replaying the whole difference rebuilds the new baseline |
| `FileMonitor.ReconcileReports` | crates/openguard-windows/src/file_monitor.rs:191-231 | exactly min(limit, differences) events, no path twice, and a full report replays |
| `FileMonitor.GapsAreNotLost` | crates/openguard-windows/src/file_monitor.rs:163-172 | a drain reconciles if and only if the baseline is ready and some gap has not been reconciled since it was seen |
| `ViewModel.SynchronizeCollection` | apps/OpenGuard.App/ViewModels/ShellViewModel.cs:412-436 | any collection becomes the duplicate-free target; replaying the notifications does the same; removals are of the last item only; and in a duplicate-free collection no item that stays is removed and inserted again |
| `ViewModel.Place` | apps/OpenGuard.App/ViewModels/ShellViewModel.cs:417-430 | one turn extends the synchronised prefix by one item |
| `ViewModel.RemoveTail` | apps/OpenGuard.App/ViewModels/ShellViewModel.cs:432-435 | the second loop leaves the target, by removals that are each of the last item |
| `ViewModel.SynchronizeMembership` | apps/OpenGuard.App/ViewModels/ShellViewModel.cs:438-460 | survivors in their old order, then the missing items in target order |
| `ViewModel.MembershipExact` | apps/OpenGuard.App/ViewModels/ShellViewModel.cs:438-460 | the result has exactly the target's members and stays duplicate-free |
| `ViewModel.MissingExact` | apps/OpenGuard.App/ViewModels/ShellViewModel.cs:451-459 | what is appended is each missing item once, in target order |
| `IpcFraming.WriteFrame` | crates/openguard-ipc/src/lib.rs:30-46 | a payload of 1 byte to 4 MiB is written as its frame; any other is refused and nothing is written |
| `IpcFraming.ReadFrame` | crates/openguard-ipc/src/lib.rs:54-70 | what is read and consumed; a length of 0 or above 4 MiB is refused before any payload byte |
| `IpcFraming.LittleEndianRoundTrip` | crates/openguard-ipc/src/lib.rs:42-57 | the length prefix reads back |
| `IpcFraming.MessagesRoundTrip` | crates/openguard-ipc/src/lib.rs:30-70 | reading the concatenated frames of any messages gives back exactly those messages |
| `IpcFraming.PrefixYieldsNothing` | crates/openguard-ipc/src/lib.rs:54-70 | no proper prefix of a frame yields a value |
| `IpcFraming.OnlyFramesAreAccepted` | crates/openguard-ipc/src/lib.rs:54-70 | whatever is accepted was the frame of a payload that decodes to it |
| `BeaconCounter.Correlator.Count` | crates/openguard-service/src/main.rs:925-929 | one observation is reported exactly when it brings an unreported key to eight in its unbroken run |
| `BeaconCounter.Correlator.CountEndpoints` | crates/openguard-service/src/main.rs:909-951 | the loop reports the keys that first reach eight in this cycle, in order |
| `BeaconCounter.Correlator.CorrelateBeacons` | crates/openguard-service/src/main.rs:896-953 | after every cycle the counters are min(255, observations in the unbroken run of cycles) and unseen keys are absent |
| `BeaconCounter.CountKeeps` | crates/openguard-service/src/main.rs:925-929 | saturation at 255 loses nothing the reports depend on |
| `BeaconCounter.EndCycle` | crates/openguard-service/src/main.rs:952-952 | dropping unseen keys is what ends a run of cycles |
| `BeaconCounter.FirstReachedExact` | crates/openguard-service/src/main.rs:927-929 | a cycle's reports are exactly the keys whose run reaches eight in it for the first time |
| `BeaconCounter.ReportsExact` | crates/openguard-service/src/main.rs:896-953 | over a whole run a key is reported if and only if some run of it reached eight, and once |
| `ScanJobs.HistoryAdvances` | crates/openguard-service/src/main.rs:1486-1661 | between any two moments of a job terminal states are kept and progress and findings only grow |
| `ScanJobs.CollectTargets` | crates/openguard-service/src/main.rs:1506-1537 | the total is announced, or the job ends failed or cancelled |
| `ScanJobs.RecordFinding` | crates/openguard-service/src/main.rs:1603-1655 | the count grows by one and a non-clean result is kept while fewer than 512 are |
| `ScanJobs.ScanTarget` | crates/openguard-service/src/main.rs:1539-1601 | the course of one target, with the terminal state each failure leads to |
| `ScanJobs.ScanTargets` | crates/openguard-service/src/main.rs:1491-1500 | after any number of turns the findings are the first 512 non-clean results so far |
| `ScanJobs.RunWorker` | crates/openguard-service/src/main.rs:1486-1504 | a job always ends; it completes exactly if every target was processed |
| `ScanJobs.JobTable.PruneFinishedScans` | crates/openguard-service/src/main.rs:2820-2843 | at 128 jobs finished ones go, in any order, until fewer than 96 remain |
| `ScanJobs.JobTable.StartScan` | crates/openguard-service/src/main.rs:2602-2659 | one step of the table's run, with each error pinned: busy if and only if 128 unfinished jobs are held, then the token, then the thread |
| `ScanJobs.PruneMakesRoom` | crates/openguard-service/src/main.rs:2820-2843 | pruning touches no unfinished job and makes room unless 128 are held |
| `ScanJobs.RunKeeps` | crates/openguard-service/src/main.rs:2602-2659 | over every run of starts, prunes and ending workers: at most 128 entries, a worker for exactly the running jobs whose start succeeded, and every entry whose start failed still running |
| `ScanJobs.FailedStartStays` | crates/openguard-service/src/main.rs:2625-2658 | an entry whose start failed is running in every later state |
| `ScanJobs.CanEndExact` | crates/openguard-service/src/main.rs:2625-2659 | an entry can ever become terminal if and only if its start succeeded |
| `ScanJobs.ExhaustedForGood` | crates/openguard-service/src/main.rs:2602-2609 | after 128 failed starts every later start is refused as busy |
| `ScanJobs.FailedStartsExhaust` | crates/openguard-service/src/main.rs:2625-2658 | and any number of failed starts up to 128 is reachable |
| `ExecutableBaseline.Database.KnownExecutableIdentities` | crates/openguard-storage/src/lib.rs:329-366 | the chunked query returns exactly the stored non-empty identities of the owner |
| `ExecutableBaseline.Database.RecordExecutables` | crates/openguard-storage/src/lib.rs:368-404 | the batch is stored, empty identities skipped |
| `ExecutableBaseline.BaselineCache.Absorb` | crates/openguard-service/src/main.rs:2524-2541 | a snapshot joins the cache and a process is flagged at the first occurrence of its identity in the history |
| `ExecutableBaseline.BaselineCache.ApplyExecutableBaseline` | crates/openguard-service/src/main.rs:2519-2590 | the cache is the set of identities in all snapshots so far and is stored unless a write failed; an uninitialised owner's first inventory flags nothing |
| `ExecutableBaseline.SeenExact` | crates/openguard-service/src/main.rs:2524-2529 | the cache holds an identity if and only if some process of the history ran it |
| `ExecutableBaseline.FirstOccurrenceExact` | crates/openguard-service/src/main.rs:2527-2529 | a process is flagged if and only if no earlier process of the history ran its identity |
| `ExecutableBaseline.FlaggedOnce` | crates/openguard-service/src/main.rs:2527-2529 | so an identity is flagged at most once after the first snapshot |

## Left out

- Windows calls (tokens, impersonation, pipes, registry, firewall, process control), YARA-X, AMSI, Authenticode and SQLite: steps or parameters that succeed or fail.
- SHA-256, Ed25519 and base64: arbitrary functions. Where a digest comparison matters, equality of digests is what is modelled; collisions are not excluded unless a lemma says so.
- BehaviorChain: the path, access-mask, address and DNS tests of the classifier, pid parsing and the detail text are parameters, so every result holds for any choice of them; an alert carries its rule in place of the constant titles the rule determines.
- Json.RoundTrip: integers only, no fractions or exponents; strings are byte strings, so UTF-8 validity and surrogate pairs are not modelled; the printer emits no whitespace, and the parser accepts none.
- CanonicalManifest.SignedPayloadExact: objects without duplicate keys, as a parsed map has none; checking the signature over the bytes is not part of this model.
- EtwLines.StreamRoundTrip: status lines of the helper, lines cut off by a crash, lines that are not UTF-8 and events dropped by a full channel are not modelled; a line ends in LF or CRLF.
- ContentPaths.TargetInside: says which names a path consists of. Which further names the file system takes for one is the parameter `name` of `StagedPublish`, one name at a time; it is assumed to keep `manifest.json` apart from `reputation.json` and `rules`.
- StagedPublish.ContentStore.InstallWithFetcher: version names `.`, `..` and names the file system takes for a staging name are excluded; parsing and signature of the manifest, URL parsing, the rule compiler and the fetch size limit are parameters or left out.
- StagedPublish.RunKeeps: one file write, one directory check and one rename are atomic steps; a failed write may leave anything.
- Quarantine.ContentSurvives: clients' files lie outside the quarantine directory and no other program changes the files while an operation is under way; creating directories and flushing are part of the step that needs them.
- TemporaryBlocks.BlocksAreSafe: the wall clock and the thread's sleep follow one nondecreasing clock; that a failed removal is eventually repeated is not claimed, because it is only logged.
- ProcessTree.TerminateProcessTree: revalidation of each path before termination is the parameter `controllable`; pid reuse during the action is not modelled.
- Timeline.PageExact: `LIKE`, trimming and the severity column are parameters; only the timeline half of the pruning transaction is modelled.
- DnsResolver.PendingBounded: parsing and normalising addresses happens before the modelled steps.
- FileMonitor.Monitor.Drain: what the queue holds, the dropped counter and the journal are inputs of each call; the notify callback that fills the channel and counts drops is not modelled; 4,096 events are kept before the baseline is ready and later ones are ignored without a gap, as in the code.
- ViewModel.SynchronizeCollection: items are compared by identity, so `IndexOf` is the first equal element.
- IpcFraming.WriteFrame: the stream accepts every write; failing and short writes are not modelled.
- BeaconCounter.Correlator.CorrelateBeacons: the key is a tuple in place of the text `identity|address|port`; the event's texts and a failing database write, which is only logged, are left out.
- ScanJobs.JobTable.Finish: a worker that panics never ends its job, which a run may leave open; that a worker eventually ends its job is not claimed.
- ScanJobs.RunWorker: what the scanner, the exclusion list and the hash list answer is an input; score, reasons and timestamps of a finding, and cancellation requests between two reads of the flag, are left out.
- ExecutableBaseline.BaselineCache.ApplyExecutableBaseline: columns other than owner and identity, and the five-minute clock behind `persistAll`, are left out; agreement of cache and database across restarts is not claimed, because the cache is seeded from the current snapshot only.
- Risk scores, capability lists, CPU and network rates, the user interface beyond the two list routines, the command line, the installer and scripts.
