# Verified model of cnpg-i-chronicle

cnpg-i-chronicle keeps the configuration of a CloudNativePG Cluster as a history of snapshots
in an object store, and restores one when a Cluster is created. This project models the parts
that carry its one claim, that the configuration chosen for a moment is the one in force then
and that applying it touches only what it may, and proves the claim of the model.

| files | what they model |
|---|---|
| `JsonTree`, `LeafMerge`, `Documents`, `Text` | generic JSON objects, segment paths, leaves; nested mutable maps on the heap with in-place set, pruning delete and leaf walk |
| `Groups`, `Denylist`, `Snapshot`, `Extraction`, `CaptureReads`, `Fingerprints` | what a capture keeps, read off the cluster it was taken from, and what the digests cover |
| `Schema`, `PathCheck`, `Skip`, `RuleMeaning`, `Transforms`, `Plan`, `Restore`, `RestoreReads`, `Admission` | the static rule checker, skip matching, transforms, plans, what a restored cluster reads, and the admission webhook |
| `Decimal`, `Civil`, `Layout`, `Refs`, `Store`, `Selection`, `Retention` | object keys, the snapshot log with its latest pointer, selection and the retention plan |
| `Sweeps`, `Orderly` | every interleaving of captures (two Puts that may fail or never happen) with retention sweeps (one Delete at a time) |
| `Capture`, `CaptureRuns`, `FastPaths`, `Watermarks`, `Misleading`, `Quiescence`, `Outcomes`, `PointInTime`, `GenerationRuns` | the two hooks, the cache and the watermark, over whole runs: when they are right, when they complete, and what selection then finds |
| `Integers`, `PgMemory`, `RetentionWindow` | 64-bit arithmetic of memory units and retention windows |
| `Wrappers`, `Order` | result types; byte order of strings and sorting |

Objects whose methods change them are classes (`Documents.Document`, `Store.Backend`,
`Store.SnapshotStore`, `Capture.SettledCache`, `Capture.Hooks`). Each method is proved against a
specification function, and the results are lemmas about those functions. Processes that
interleave are state machines whose steps are the single calls to the store.

Hypotheses are named predicates. `Denylist.WellFormed` is what the capture tables owe each
other, and `Denylist.ShippedWellFormed` proves it of the tables the plugin ships.
`CaptureRuns.Digests` says that a checksum is never empty, starts with eight hexadecimal digits
and tells contents apart. `CaptureRuns.Allowed` says that a generation never decreases and
determines the spec. `Schema.Transparent` says that the field lookup hides nothing encoding/json
writes.

Some things the comments say, or one might hope, are not true of the code. Each is stated here
as the code has it, with runs or inputs that show it and the exact condition under which the
hope holds.

- A restore is called additive (`internal/restore/plan.go:171`). A null, scalar, list or empty map
  of the snapshot erases a populated map of the target: `Restore.TerminalErasesMap`. Nothing is
  deleted exactly when no change stands where the target holds a populated map:
  `Restore.NothingDeletedIff`.
- A watermark hit may skip a capture the store needs. It does when a label edit is undone before
  the next status refresh (`Misleading.RevertedEditIsMissed`), and when an upgrade is taken back
  after its build polled (`Misleading.DowngradeMisleads`). A hit, whichever build published the
  watermark, is sound exactly when the newest snapshot has the rules in force, and the labels and
  annotations a capture would keep now: `Watermarks.WatermarkHitSoundIff`. Labels and annotations
  alone decide where the watermark names the newest snapshot: `Watermarks.WatermarkHitNames`.
- So may a settled hit, after a pointer Put that failed but took effect
  (`Misleading.LandedPointerMisleads`), or a crash between the two Puts in a bucket without a
  pointer (`Misleading.UnpointedPutMisleads`). It is sound exactly when the newest snapshot has
  the checksum and rules of the one the entry names: `Watermarks.SettledHitSoundIff`; and always
  when writes fail cleanly while the cache holds an entry: `FastPaths.SettledHitIsSound`.
- A snapshot copied into a folder beneath the prefix can make retention delete the anchor:
  `Retention.NestedCopyLosesTheAnchor`. Answers since the cutoff survive a sweep exactly when it
  keeps the anchor, or none is needed: `Retention.WindowSurvivesIff`. Keys directly beneath the
  prefix are in time order (`Refs.NamedIsChronological`), where it always does. No moment gets
  another snapshot for an answer exactly when what a sweep deletes is older than what it keeps:
  `Retention.SameAnswerOrRefusalIff`.
- A rule path of a captured field is refused where the field's struct is embedded by pointer:
  `PathCheck.EmbeddedPointerRefused`. The path of a captured leaf is accepted exactly when it is
  in the metadata or resolves in the type: `PathCheck.LeafPathAcceptedIff`. On types the lookup
  sees as encoding/json does (`Schema.Transparent`), it always is: `PathCheck.LeafPathAccepted`.
- A retention window of more than 106751 days wraps around: `RetentionWindow.WindowExactIff`,
  `RetentionWindow.OverlongWindowIsNegative`.

## Model

| member | source | states |
|---|---|---|
| `JsonTree.SettableIff` | internal/pathutil/path.go:113-135 | SetSegments succeeds exactly when no proper prefix of the path holds something other than a map or null |
| `JsonTree.SetAtEffect` | internal/pathutil/path.go:113-135 | afterwards the path and all beneath it read the new value, every prefix is a map, and all unrelated paths read as before |
| `JsonTree.DeleteAtEffect` | internal/pathutil/path.go:66-90 | after a delete nothing is at or beneath the path and unrelated paths are unchanged, though emptied parents are pruned |
| `LeafMerge.WalkIsAntichain` | internal/pathutil/path.go:182-197 | the leaves of an object, in whatever order the maps are visited, have distinct paths none of which is a prefix of another |
| `LeafMerge.MergeFailsIff` | internal/restore/plan.go:237-246 | writing an antichain of edits fails exactly when the original target itself blocks one of them |
| `LeafMerge.MergeEffect` | internal/restore/plan.go:237-246 | the exact value at every path of the target after all edits |
| `LeafMerge.MergeOrderIndependent` | internal/restore/plan.go:231-246 | any two orders of the same edits succeed together and build the same tree |
| `LeafMerge.MergeIdempotent` | internal/restore/plan.go:237-246 | applying the edits again changes nothing |
| `LeafMerge.LeafRoundTrip` | internal/pathutil/path.go:182-197 | writing all leaves of an object into an empty map rebuilds it, dotted keys, nulls and empty maps included |
| `Documents.Document.SetSegments` | internal/pathutil/path.go:113-135 | the in-place write on nested heap maps has exactly the effect of SetAt and refuses exactly when the path is blocked |
| `Documents.Document.DeleteSegments` | internal/pathutil/path.go:74-90 | the recursive in-place delete prunes emptied maps exactly as DeleteAt says and moves no other map |
| `Documents.Document.Delete` | internal/pathutil/path.go:66-72 | deleting a path in place is DeleteAt on the object's value |
| `Documents.Document.Get` | internal/pathutil/path.go:92-108 | a lookup finds exactly what stands at the segments |
| `Documents.Document.WalkLeaves` | internal/pathutil/path.go:182-197 | the walk over heap maps yields every leaf once, in some order |
| `Text.SplitPathJoins` | internal/pathutil/path.go:45-50 | joining the segments of any path gives the path, no segment holds a dot, and only the empty path has none |
| `Text.JoinSplit` | internal/snapshot/pathcheck.go:114-114 | joining what strings.Split makes of a string gives the string |
| `Text.SplitJoin` | internal/pathutil/path.go:175-175 | splitting a joined path gives its segments back, if none holds a dot |
| `Text.CoversSegments` | internal/snapshot/denylist.go:103-110 | a dotted path covering another by string prefix does so by segments, when the covering segments hold no dots |
| `Order.SortSlice` | internal/store/snapshots.go:105-115 | sorting gives a permutation in order, and promises nothing about equal elements |
| `Order.SortStringsCanonical` | internal/snapshot/canonical.go:96-97 | the sorted list does not depend on the order its elements came in |
| `Groups.FieldNamesFit` | internal/snapshot/groups.go:54-232 | every field a shipped group names is non-empty, dot-free and not on the denylist |
| `Denylist.ShippedWellFormed` | internal/snapshot/denylist.go:41-90 | the shipped allowlist and denylist fit each other; no denied entry is spec, metadata, labels or annotations |
| `Denylist.WithoutEffect` | internal/snapshot/denylist.go:95-101 | after the denylist is applied nothing is left at or beneath a denied path, and paths related to none are unchanged |
| `Denylist.ApplyDenylist` | internal/snapshot/denylist.go:95-101 | the in-place deletions have exactly that effect |
| `Denylist.FilterMetadata` | internal/snapshot/denylist.go:114-130 | the loop keeps exactly the keys that are not denied |
| `Denylist.FilterGUCs` | internal/snapshot/denylist.go:160-175 | the loop keeps exactly the parameters CloudNativePG does not fix |
| `Denylist.FilterSharedPreloadLibraries` | internal/snapshot/denylist.go:197-215 | the loop keeps the libraries CloudNativePG does not manage, in order |
| `Denylist.KeptLibrariesIdempotent` | internal/snapshot/denylist.go:197-215 | filtering libraries twice is filtering them once |
| `Denylist.KeptLibrariesPick` | internal/snapshot/denylist.go:197-215 | what is kept is just the entries that no managed library's name is, in their order |
| `Denylist.KeptLibrariesCount` | internal/snapshot/denylist.go:197-215 | a managed name is kept no time, and everything else as often as it stood there |
| `Denylist.DeniedKeyMeans` | internal/snapshot/denylist.go:134-148 | a key is refused exactly when it is listed or its domain is a denied one or lies beneath one |
| `Groups.EffectiveGroupsAre` | internal/snapshot/groups.go:254-275 | the groups of a capture are those configured, and if none are, those enabled by default |
| `Snapshot.RestorableTreeAt` | internal/restore/plan.go:67-83 | a snapshot put back into cluster shape holds its spec, labels and annotations and no empty metadata |
| `Snapshot.LeafForms` | internal/restore/plan.go:67-83 | for any snapshot, a leaf is a field below spec or one label or annotation; spec and metadata themselves never are |
| `Extraction.Extract` | internal/snapshot/extract.go:63-138 | a capture is refused exactly for a group that is unknown or names a denied path, and else records Extracted |
| `Extraction.RefusedIffUnknown` | internal/snapshot/extract.go:77-95 | with well-formed tables only an unknown group is refused |
| `CaptureReads.ExtractedHoldsJust` | internal/snapshot/extract.go:59-163 | a capture holds every enabled field, unmanaged library, parameter that is not fixed and undenied label or annotation with the source's value, and nothing else |
| `Extraction.SanitizePostgresConfiguration` | internal/snapshot/extract.go:143-163 | parameters and libraries are cleaned in the captured tree, and removed with pruning when nothing is left |
| `Extraction.CleanIdempotent` | internal/snapshot/extract.go:143-163 | cleaning a cleaned spec changes nothing |
| `Extraction.DenylistNoop` | internal/snapshot/extract.go:101-102 | after the allowlist walk the denylist removes nothing |
| `Extraction.ExtractFixpoint` | internal/snapshot/extract.go:63-138 | capturing a cluster that holds just a capture gives the same content |
| `Fingerprints.FingerprintAgrees` | internal/snapshot/canonical.go:78-109 | a cluster's live fingerprint is the one recomputed from the snapshot captured from it |
| `Fingerprints.FingerprintDecides` | internal/snapshot/canonical.go:120-148 | under one spec, equal fingerprints mean equal captured content, whatever groups and tables were in force |
| `Fingerprints.ReorderedGroupsSameFingerprint` | internal/snapshot/canonical.go:96-97 | reordering the configured groups is not a change |
| `Schema.FieldLookup` | internal/snapshot/pathcheck.go:242-257 | the field search through embedded structs finds a field exactly when the type has one of that name |
| `Schema.LookupIsEncoding` | internal/snapshot/pathcheck.go:240-257 | on a transparent type the field search finds a name with a type exactly when encoding/json writes one |
| `PathCheck.ResolveInClusterSpec` | internal/snapshot/pathcheck.go:103-127 | the loop over path segments accepts exactly the paths that resolve in the type |
| `PathCheck.FindNamesMap` | internal/snapshot/pathcheck.go:141-164 | the loop finds exactly the paths that name a map |
| `PathCheck.CapturedLeafNotDenied` | internal/snapshot/denylist.go:103-110 | no leaf of a snapshot that groups could have captured lies on the denylist |
| `PathCheck.EmbeddedPointerRefused` | internal/snapshot/pathcheck.go:250-254 | a field inlined through an embedded pointer is refused as unresolved, though a capture can hold it |
| `PathCheck.LeafPathAcceptedIff` | internal/snapshot/pathcheck.go:41-133 | the path of a leaf some capture holds, or a cut of it at a dot, is refused if and only if it lies beneath spec and does not resolve in the type |
| `PathCheck.LeafPathAccepted` | internal/snapshot/pathcheck.go:41-133 | the static check accepts every path of a leaf some cluster of a transparent type can capture, and every cut of it at a dot |
| `RuleMeaning.ResolvesByRoute` | internal/snapshot/pathcheck.go:103-127 | a path resolves exactly when field names lead all the way, or to a map on it |
| `RuleMeaning.NamesMapByRoute` | internal/snapshot/pathcheck.go:141-164 | a path names a map exactly when field names lead to one through structs |
| `RuleMeaning.UsableMeans` | internal/snapshot/pathcheck.go:41-133 | the check accepts a path exactly when, segment by segment, no denied path stands at or above it and it is captured metadata, or comparable with a field of some group and leads along the schema |
| `RuleMeaning.RuleAcceptedIff` | internal/restore/skip.go:63-112 | a skip rule is accepted exactly when it names a known group alone, or a path alone that names a map if the rule has keys |
| `Skip.NewSkipSet` | internal/restore/skip.go:63-110 | the loop compiles exactly the rules given, and fails exactly when one of them is malformed |
| `Skip.SkipMeansSegments` | internal/restore/skip.go:114-169 | on every conforming leaf the string matcher skips exactly what some rule removes by whole segments and whole map keys |
| `Transforms.NewTransformSet` | internal/restore/transform.go:51-86 | the set is built exactly when paths are distinct and expressions compile, and holds each program under its path |
| `Transforms.CheckAllFired` | internal/restore/transform.go:155-191 | the reported problems are exactly the transforms that neither ran nor may be missing |
| `Transforms.CountBeneath` | internal/restore/transform.go:194-202 | the count is the number of leaf paths beneath the path |
| `Plan.BuildPlan` | internal/restore/plan.go:176-232 | a plan is built exactly when every program that runs yields a value and every transform is accounted for, independently of map order |
| `Plan.Visit` | internal/restore/plan.go:188-224 | one leaf is denied, skipped, refused or planned exactly as the rules say |
| `Plan.SettlesIff` | internal/restore/transform.go:155-191 | the accounting done on collected path strings is the one stated on leaves |
| `Restore.ApplyPlan` | internal/restore/plan.go:237-246 | applying the changes in place succeeds and ends exactly as merging them into the tree |
| `Restore.PlanChanges` | internal/restore/plan.go:188-232 | the changes of a plan are the restored leaves, once each, and no change path is a prefix of another |
| `Restore.DenylistFrame` | internal/restore/plan.go:188-202 | for every snapshot, rule set and target, a successful restore leaves every denied path and denied key as it was |
| `Restore.ApplyEffect` | internal/restore/plan.go:237-246 | the exact value at every path after a restore, and exactly when a restore is refused |
| `Restore.NothingDeletedIff` | internal/restore/plan.go:171-175 | everything the target held is still there after a restore if and only if no change stands where the target holds a populated map |
| `Restore.TerminalErasesMap` | internal/pathutil/path.go:113-135 | for every field, a null, scalar, list or empty map in the snapshot erases the entries of the target's map |
| `Restore.RestoreOrderIndependent` | internal/restore/plan.go:231-246 | every map iteration order and every order the unstable sort may leave give the same result, and repeating it changes nothing |
| `Restore.LeavesAccounted` | internal/restore/plan.go:188-229 | every leaf is either an exclusion or a change carrying the captured or the transformed value |
| `Restore.TransformsAccounted` | internal/restore/transform.go:155-191 | a transform that did not run tolerates that, no leaf of the snapshot lies beneath its path, none at it was skipped, and no change is at or beneath it |
| `RestoreReads.SkipFrame` | internal/restore/plan.go:189-208 | where a leaf of the snapshot is skipped or never restored, the target keeps what it had, there and beneath |
| `RestoreReads.RestoredReads` | internal/restore/plan.go:210-226 | every other leaf reads the snapshot's value afterwards, or what the program of its path made of it |
| `RestoreReads.UnnamedReads` | internal/restore/plan.go:237-246 | what no leaf stands at, above or below reads as before |
| `RestoreReads.PlanLists` | internal/restore/plan.go:186-234 | a plan lists a change for every leaf neither refused nor skipped and an exclusion with its reason for every other, and nothing else |
| `RestoreReads.RestoreByRules` | internal/restore/plan.go:176-246 | by the rules as written: what a rule removes by whole segments is what the target keeps, and every other leaf reads its transform's result or its own value |
| `Restore.ValidateRuleCoherence` | internal/restore/plan.go:125-134 | the check passes exactly when no transformed path is skipped |
| `Restore.FirstUnusable` | internal/restore/plan.go:144-162 | the check passes exactly when all written paths are usable |
| `Restore.CompileRules` | internal/restore/plan.go:101-117 | rules are accepted, compiled, when they are well formed, coherent and usable; each refusal names what fails |
| `Restore.CoherentNeverContradicts` | internal/restore/plan.go:125-134 | rules CompileRules accepts never reach the skipped-and-transformed error, on any snapshot |
| `Restore.CaptureRestoreCapture` | internal/restore/plan.go:176-246 | restoring a capture into an empty target rebuilds it, and capturing that gives the same content |
| `Admission.Handle` | internal/webhook/cluster_mutate.go:102-172 | a request is allowed unchanged exactly on the gate's word, and a patched one is the merge of a plan plus the record |
| `Admission.GateMeans` | internal/webhook/cluster_mutate.go:124-154 | read off the manifest: the first declaration of this plugin decides and one switched off is as none; a half-specified source or one that is also the destination is refused; only a complete other source without a record is restored |
| `Admission.RestoresIff` | internal/webhook/cluster_mutate.go:213-262 | a plan restores a cluster exactly when some leaf is to be restored, nothing stands in the way of one, and the record can be written |
| `Admission.PatchedReads` | internal/webhook/cluster_mutate.go:205-262 | a patched cluster reads every restored leaf as the rules say, every other one as before, and holds the record |
| `Admission.RestoreCluster` | internal/webhook/cluster_mutate.go:174-256 | a restore is denied exactly when the rules do not suit the snapshot, nothing would change, or a change or the record is blocked; else the cluster is the merge of the plan plus the record |
| `Admission.SecondAdmissionAllows` | internal/webhook/cluster_mutate.go:122-152 | a second pass over a patched Cluster allows it as already restored, whatever was restored |
| `Admission.RecordComesFromAdmission` | internal/webhook/cluster_mutate.go:320-340 | no snapshot can set or overwrite the record of a restore |
| `Admission.ShippedProtectsGate` | internal/snapshot/denylist.go:41-90 | the shipped tables protect everything the gate reads |
| `Civil.StampOrder` | internal/store/layout.go:31-33 | timestamps of years 0 to 9999 sort as strings in time order |
| `Civil.StampParses` | internal/store/layout.go:124-127 | parsing a formatted timestamp gives the second back |
| `Civil.ParsedStampIsCanonical` | internal/store/layout.go:124-127 | a timestamp that parses is the one its second is formatted as |
| `Civil.DaysFollow` | internal/store/layout.go:29-31 | each day is followed by the next of the Gregorian calendar, from the first of year 0 |
| `Civil.StampReads` | internal/store/layout.go:29-31 | a stamp is the date and the time of day of its second, zero-padded |
| `Layout.KeyRoundTrip` | internal/store/layout.go:90-133 | ParseSnapshotKey inverts SnapshotKey up to whole seconds |
| `Layout.KeyReads` | internal/store/layout.go:78-100 | where a snapshot and the pointer lie, part by part |
| `Layout.HashReads` | internal/store/layout.go:102-114 | a key's hash is the first eight digits after the algorithm, or zeros |
| `Layout.ParsedNameIsCanonical` | internal/store/layout.go:118-133 | a file name that parses is the name of what it parses to |
| `Layout.KeyOrder` | internal/store/layout.go:35-41 | string order of keys beneath one prefix is the order of second, generation, hash |
| `Layout.LatestKeyApart` | internal/store/layout.go:83-100 | the pointer is never among the listed snapshots |
| `Layout.ServersApart` | internal/store/layout.go:78-85 | of two distinct slash-free server names neither's prefix extends the other's |
| `Refs.BeforeIsWeakOrder` | internal/store/snapshots.go:105-115 | the comparison of sortRefs is a proper sorting order |
| `Refs.BeforeTotal` | internal/store/snapshots.go:105-115 | and tells any two references apart |
| `Refs.NamedIsChronological` | internal/store/retention.go:72-74 | keys directly beneath the prefix are in time order, so both sorts agree |
| `Store.Backend.List` | internal/store/backend.go:55-56 | a listing holds every key under the prefix once, in lexical order |
| `Store.SnapshotStore.Write` | internal/store/snapshots.go:77-91 | the object is put before the pointer, and a key is returned exactly when both Puts succeed |
| `Store.SnapshotStore.List` | internal/store/snapshots.go:131-148 | the listing is every key that parses, once, oldest first |
| `Store.SnapshotStore.Latest` | internal/store/snapshots.go:156-182 | the pointer's snapshot under its recomputed key, or the newest listed one; an unverifiable document is an error |
| `Store.OthersUnlisted` | internal/store/layout.go:83-87 | a snapshot of another server is never listed |
| `Selection.SelectAtOrBefore` | internal/restore/select.go:135-172 | the selected snapshot is the newest at or before the moment, and it is refused exactly when there is none |
| `Selection.SelectByGeneration` | internal/restore/select.go:103-128 | the selected snapshot is the newest of the generation |
| `Selection.MomentAnswers` | internal/restore/select.go:135-172 | the newest listed snapshot not after the moment is read, if its document is genuine; there are none, or all are later, exactly when it says so |
| `Selection.GenerationAnswers` | internal/restore/select.go:103-128 | the newest listed snapshot of the generation is read, if genuine; the generation is unknown exactly when nothing listed has it |
| `GenerationRuns.SelectionIsLastOfGeneration` | internal/restore/select.go:103-128 | over whole runs, a generation selects the last snapshot written with it, and is refused exactly when there is none or a sweep has deleted it |
| `Retention.PlanRetention` | internal/store/retention.go:64-96 | the plan is everything before the last of the leading snapshots older than the cutoff, in key order |
| `Retention.PlanMeaning` | internal/store/retention.go:64-96 | in a chronological history that is exactly what the anchor supersedes, oldest first |
| `Retention.SameAnswerOrRefusal` | internal/store/retention.go:22-39 | however early a sweep stops, every moment selects as before or nothing; all moments since the anchor are unchanged, and a finished sweep refuses all before it |
| `Retention.SameGenerationOrRefusal` | internal/restore/select.go:103-128 | the same for every generation |
| `Retention.WindowSurvivesIff` | internal/store/retention.go:22-39 | in any history, all answers since the cutoff survive a sweep that stops anywhere if and only if it did not delete the last snapshot before the cutoff, there was none, or one was captured at the very cutoff |
| `Retention.SameAnswerOrRefusalIff` | internal/store/retention.go:22-39 | after any deletion from any history, every moment selects as before or nothing, if and only if no kept snapshot is as old as a deleted one that was ever the answer |
| `Retention.SweepsCompose` | internal/store/retention.go:64-96 | a later sweep ends the same whether or not an earlier one ran, or how far |
| `Retention.NestedCopyLosesTheAnchor` | internal/store/retention.go:72-95 | an older copy in a folder beneath the prefix makes the plan delete the snapshot in force |
| `Sweeps.PruneSuperseded` | internal/controller/configstore_controller.go:328-358 | the method deletes the plan in its order up to the first delete that fails, and nothing else; it finishes exactly when none fails |
| `Sweeps.SweepKeepsAnswers` | internal/controller/configstore_controller.go:328-358 | after any such sweep a restore reads the very snapshot it read before, or is refused, and never the latter since the cutoff |
| `Sweeps.ConcurrentSweepsAreSafe` | internal/controller/configstore_controller.go:312-358 | in every interleaving of writers and sweeps, selection since the largest cutoff answers as if nothing had ever been deleted |
| `Orderly.SameAnswerOrRefusalEverywhere` | internal/controller/configstore_controller.go:312-358 | with captures in ascending order, every moment and generation answers so or is refused, in every interleaving |
| `Orderly.PointerInvariant` | internal/store/snapshots.go:72-91 | with writers that may die between the Puts, the pointer always holds a verified snapshot whose object is present with the same content, unless a newer one before some cutoff is |
| `Orderly.PointerSwept` | internal/store/retention.go:85-95 | a sweep removes the pointer's object exactly when a newer snapshot was captured before its cutoff |
| `Orderly.PointerAgreesAfterWrite` | internal/store/snapshots.go:156-182 | after a complete Write the pointer and the listing give Latest the same answer |
| `Capture.SettledCache.Settled` | internal/cnpgi/operator/settled.go:71-83 | a hit needs the same cluster, generation and fingerprint |
| `Capture.SettledCache.Remember` | internal/cnpgi/operator/settled.go:86-101 | the entry is recorded, after dropping all at the threshold, and the cache never grows past it |
| `Capture.Hooks.Post` | internal/cnpgi/operator/reconciler.go:144-266 | one Post changes the bucket and the cache exactly as its specification says, for every way its Puts may end |
| `Capture.Hooks.SetStatusInCluster` | internal/cnpgi/operator/status.go:151-244 | the published status is a function of the store, or nothing while the last one holds |
| `Outcomes.WatermarkIs` | internal/cnpgi/operator/status.go:99-114 | the watermark is the first status of this plugin that is not empty, if it is readable |
| `Outcomes.LatestAnswers` | internal/store/snapshots.go:156-182 | the pointer decides if there is one, unreadable or not, else the newest listed object; only a genuine document is returned |
| `Outcomes.PostCompletesIff` | internal/cnpgi/operator/reconciler.go:196-265 | a Post completes exactly when the status or the cache says the state is captured, or all groups are known, the newest snapshot is not unreadable, and it matches or both Puts are done |
| `Outcomes.PostLeavesAlone` | internal/cnpgi/operator/reconciler.go:199-250 | a Post with nothing to capture, or that fails before its first Put, changes neither bucket nor cache |
| `Outcomes.PostRemembersMatch` | internal/cnpgi/operator/reconciler.go:237-246 | a state found captured is remembered with the key found, and nothing is written |
| `Outcomes.PostHandsToWrite` | internal/cnpgi/operator/reconciler.go:210-265 | every other Post hands Write the snapshot of what it saw, and remembers it when both Puts are done |
| `Outcomes.RememberKeeps` | internal/cnpgi/operator/settled.go:86-101 | remembering one cluster forgets no other below the threshold, and all of them at it |
| `Outcomes.StaysComplete` | internal/cnpgi/operator/reconciler.go:189-266 | after one success, with cluster and rules left alone, every later Post completes, whatever its Puts would have met, through restarts, evictions, sweeps and polls |
| `Outcomes.PollPublishesIff` | internal/cnpgi/operator/status.go:200-244 | a poll publishes exactly when the status is another store's or no longer holds, and Latest answers; the Cluster then names what Latest found |
| `Outcomes.StatusIsFresh` | internal/cnpgi/operator/status.go:200-244 | in every run, after a Post that wrote, the next poll names the snapshot it wrote, the newest, and the watermark hits |
| `CaptureRuns.SweepKeepsLatest` | internal/store/snapshots.go:156-182 | no sweep changes what Latest answers, with a pointer or without |
| `FastPaths.FailedWriteKeepsLatest` | internal/store/snapshots.go:77-91 | a Write that fails before the pointer moves changes nothing Latest says, if there was a pointer |
| `FastPaths.SettledHitIsSound` | internal/cnpgi/operator/settled.go:71-101 | in every run, upgrades included, whose writes fail so while the cache holds an entry, a settled hit means the newest snapshot has the content and rules a capture would produce |
| `Watermarks.SettledHitSoundIff` | internal/cnpgi/operator/settled.go:71-101 | in every run, however its Puts end, a settled hit names a snapshot of the run and is sound if and only if the newest one has its checksum and rules |
| `Watermarks.WriteLatestEither` | internal/store/snapshots.go:77-91 | however its Puts end, a Write leaves Latest saying what it said before or the snapshot written |
| `Watermarks.SnapshotFingerprint` | internal/cnpgi/operator/status.go:228-233 | the fingerprint recomputed from a snapshot is the one its cluster had |
| `Watermarks.WatermarkHitSoundIff` | internal/cnpgi/operator/reconciler.go:199-204 | in every run, however its Puts end and whichever build published, a hit is sound if and only if the newest snapshot has the rules in force and the labels and annotations a capture would keep now |
| `Watermarks.WatermarkHitNames` | internal/cnpgi/operator/status.go:228-244 | every hit names a snapshot of the run with the rules in force and the spec a capture would hold now; if it is the newest one, its labels and annotations alone decide |
| `Watermarks.PublishedHitSoundIff` | internal/cnpgi/operator/status.go:228-244 | where the key filters in force published the watermark, a hit is sound if and only if the newest snapshot carries the published checksum and the rules in force |
| `Watermarks.WatermarkHitIsSound` | internal/cnpgi/operator/reconciler.go:199-204 | so it is in particular when the watermark names the newest snapshot |
| `Misleading.RevertedEditIsMissed` | internal/cnpgi/operator/reconciler.go:199-204 | for every cluster and label edit, captured and undone between two status polls, the last Post skips while the newest snapshot holds the undone edit |
| `Misleading.LandedPointerMisleads` | internal/cnpgi/operator/settled.go:71-101 | if a failed pointer Put took effect, a settled hit can skip a capture the store needs |
| `Misleading.UnpointedPutMisleads` | internal/store/snapshots.go:72-91 | in a bucket without a pointer a crash between the two Puts does the same, though no pointer ever changed |
| `Misleading.DowngradeMisleads` | internal/cnpgi/operator/status.go:228-244 | a capture, an upgrade that drops a key and polls, the downgrade and the key's removal make a watermark hit while the newest snapshot still holds the key |
| `Quiescence.NoFurtherWrite` | internal/cnpgi/operator/reconciler.go:189-266 | after any run of a new process and one Post that succeeds, with cluster and rules fixed no later Post writes, through restarts, evictions, sweeps and polls |
| `Quiescence.StatusSettles` | internal/cnpgi/operator/status.go:197-244 | and every later poll publishes nothing or the same one value |
| `PointInTime.SelectionIsWhatPostSaw` | internal/cnpgi/operator/reconciler.go:144-266 | over whole runs with edits, rule changes, restarts and sweeps, selecting for a moment gives exactly what the last Post at or before it saw |
| `PointInTime.SelectsLastWritten` | internal/restore/select.go:135-172 | selection finds the last snapshot written at or before the moment while the bucket still holds it |
| `PointInTime.AnswerSurvives` | internal/store/retention.go:64-96 | the answer for a moment outlives every sweep whose cutoff is not after it |
| `PgMemory.SettingRoundTrips` | internal/restore/celenv/pgmem.go:69-119 | a setting is read exactly if and only if its bytes fit 64 bits, and then writing it in its own unit reads back the same |
| `PgMemory.FormatLosesLessThanAUnit` | internal/restore/celenv/pgmem.go:95-108 | formatting fails exactly for a non-zero amount below one unit, and else loses less than one, toward zero |
| `PgMemory.MatchIff` | internal/restore/celenv/pgmem.go:29-29 | what matches is exactly an optional sign, digits and a unit, with spaces around and between |
| `PgMemory.SettingReads` | internal/restore/celenv/pgmem.go:69-88 | a setting reads as its amount times the power of 1024 of its unit, kept to 64 bits, or is out of range |
| `PgMemory.FormatReads` | internal/restore/celenv/pgmem.go:95-108 | bytes are written in whole units, truncated toward zero, under PostgreSQL's name for the unit |
| `RetentionWindow.WindowExactIff` | api/v1/configstore_types.go:254-275 | a window is exact, and status shows the days asked for, if and only if these are at most 106751, and then it is positive |
| `RetentionWindow.OverlongWindowIsNegative` | api/v1/configstore_types.go:254-275 | up to twice that, a longer window is negative |
| `RetentionWindow.WindowReads` | api/v1/configstore_types.go:254-275 | which windows are accepted, and how many days they ask for |

## Left out

- Documents.Document.SetSegments: takes values that are no populated map, which is all a plan or an annotation writes; storing a shared map by reference is not modelled.
- Documents: two paths of one object never share a map, so aliasing between a source Cluster and what was captured from it is not visible.
- Extraction.Extract: works on JSON values where the source fills maps in place; its set, delete and filter steps are the ones proved in place elsewhere, but the nested maps it shares with the Cluster are copies here.
- Snapshot.RestorableTreeAt: the tree is built as a value; BuildPlan and Admission take a Document that holds it.
- Skip.SkipMeansSegments: assumes that the maps of the schema hold scalars; a map of structs would let a rule cut inside a value.
- PathCheck.LeafPathAccepted: the Go types are a finite type tree with a conformance relation to JSON; recursive types, custom encodings other than opaque ones, types that are not transparent (a struct embedded by pointer, or one name for two types) and defaulting by typed decoding are not modelled.
- Restore.CompileRules: compiling and evaluating an expression are foreign; a program is any partial function of a value and its path whose result is no map.
- Fingerprints.FingerprintDecides: SHA-256 and JSON text are not modelled; digests are compared by what they cover, and only the checksum is a string, because keys hold eight digits of it.
- PointInTime.SelectionIsWhatPostSaw: two contents whose keys agree in second, generation and eight digits of the hash overwrite each other; the hypothesis on the order of writes excludes that.
- Capture.Hooks.Post: decoding the request, the plugin's own parameters and opening the store are not modelled, nor is a ConfigStore repointed to another bucket, which no fingerprint covers.
- Sweeps.PruneSuperseded: one history; the loop over the namespace's Clusters adds only that different servers lie apart, which is Layout.ServersApart.
- Admission.Handle: loading the policy, reaching the store and selecting a snapshot are parameters; the encoded record is an arbitrary string.
- RetentionWindow.WindowExactIff: describeRetention divides in floating point; it is modelled on whole days, where that is exact.
- PgMemory.FormatLosesLessThanAUnit: upper-casing a unit is modelled for ASCII letters.
- Civil.StampOrder: times before year 0 are not modelled, and the order of keys is stated for four-digit years, as the pattern of keys requires.
- Selection modes: the dispatch on the mode, recovery-target resolution and the description of ranges in errors are case analysis.
- Error texts, exclusion reasons, logging, conditions, gRPC serving, manager wiring, S3, TLS and Secrets.
- The barman cache of store resolution, quantity paths and Kubernetes quantity arithmetic.
- Retention settings other than a window (Forever, inherited): a choice between values.
