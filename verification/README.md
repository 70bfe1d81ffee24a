# Verified model of Sinker

Sinker is a Kubernetes controller: a `ResourceSync` names a source object, a target object and an
ordered list of mappings, and Sinker keeps the target in line with the source. This project models
its mapping engine, its reconcile lifecycle, its watch tasks and its metrics in Dafny and proves what
they guarantee. `dafny verify dfyconfig.toml` checks everything.

## How the model is built

| file | models |
|---|---|
| `JsonTree.dfy`, `DotPath.dfy`, `Rearranged.dfy` | JSON values, reading and writing at a path, dotted paths, reordered lists |
| `FieldPath.dfy` | the mutable document and the cursor loop of `set_field_path` |
| `Objects.dfy` | typed objects, metadata, and their JSON form |
| `Mapping.dfy`, `MappingLaws.dfy` | `clone_resource`, `apply_mappings` and their laws |
| `MetadataWrites.dfy` | what a mapping below `metadata.` does, and what the last mapping of a list leaves |
| `Finalizers.dfy`, `Status.dfy` | the two finalizer edits; the status condition over histories |
| `WatcherRegistry.dfy` | the manager of watch tasks |
| `Reconcile.dfy`, `Lifecycle.dfy` | the calls one reconcile makes; reconciles among everything else that happens |
| `Filters.dfy`, `RemoteWatcher.dfy`, `WatchSafety.dfy` | attribution of changes; a watch task; a watch task among changes |
| `Ends.dfy`, `Quiescence.dfy` | one watched end against its changes; the reconcile loop with both its watch tasks |
| `Departure.dfy` | the same loop and tasks when the ResourceSync is deleted |
| `Metrics.dfy` | the counters around attempts |

**Imperative code.** `set_field_path`, `apply_mappings`, the reconcile functions, the watch loops and
the registry are methods that change state, proved against specification functions. What the API
answers is a parameter of the method that asks (`Answers`, `Startup`, `Connection`).

**Protocols.** `Reconcile.Next` and `RemoteWatcher.Next` say which call or event may come next at each
position. The methods may only take steps that these functions allow, so every execution of the
methods follows them (a reconcile makes exactly `Reconcile.Calls`). `Lifecycle` and `WatchSafety` then
let the same steps interleave, one API call at a time, with everything the environment can do, and
state safety for every run. `Quiescence` composes the two: one reconcile loop and both its watch tasks,
each step a step of `Lifecycle` or of `RemoteWatcher.Next`.

**JSONPath.** The library is a parameter `q`. All laws about mapping lists hold for any `q`, whatever
its expressions select. Only the laws that read a value back assume `MemberNamesSelect(q)`: a chain of
plain member names (section 2.5.1.1 of RFC 9535) selects the value at that path or nothing.

**Lifecycle.** One `ResourceSync` with one UID and a fixed spec, one reconcile at a time. The cache may
lag by any number of versions but never goes back. A failing write may or may not have taken effect.
The user may delete the object, others may change annotations and add or remove their own finalizers
but leave Sinker's alone, the target may change in any way, and the controller may restart at any call.

**Watches.** A change of the watched object gets a version newer than any given out before. A stream
delivers the changes after the version it was opened at, in order, with bookmarks anywhere between
them, and may end or break at any point. A version may expire; what a stream from version "0" then
replays is up to the server.

**Loop and watches together.** A ResourceSync that nobody deletes, from its first listing on. Any call
and any watch may fail, the cache may lag, the status may not be written, others may change source and
target and edit the ResourceSync, and the controller may restart. An apply stamps Sinker's
managed-fields entry with the strictly newest time among entries that all carry one. `Departure` adds the
deletion: the API server lets finalizers of a deleted object only be taken away, and the cache enqueues
the ResourceSync when it comes to show the deletion, which is a new generation (src/controller.rs:471-479).

## Where code and documentation differ

- The documentation (README.md:228) says that the subtree of a root replacement must have the API
  version and kind of the target reference. The code does not compare them (src/mapping.rs:84-95) and
  gives the target the type it parsed. `OtherTypesAreAccepted` has the mismatch, and
  `TargetTypeIsRequestedExactlyWhen` says exactly when the target has the requested type.
- `split('/')` on an API version keeps only the last two terms (src/mapping.rs:160-167), so a
  version such as `a/b/c` or `/v1` does not come back as it was. `ApiVersionRoundTrip` and
  `EmbedThenMaterialiseIsClone` give the exact condition.
- The documentation (README.md:277) says that Sinker stops the watches and removes its finalizer once the
  target is absent. With a stale cache a second cleanup can start a watch after that, even for a
  ResourceSync that is gone (`StaleSnapshotLeaksAWatch`). `LeakExactlyWhenExposed` says exactly from
  which worlds a reconcile can do so: the cached version is deleted, still has the finalizer and does
  not disable target deletion, while the live one has lost the finalizer. `FinalizerGuardsWatches`
  holds for every run in which no reconcile begins in such a world.
- An expired version sends a watch back to version "0" without a reconcile (src/remote_watcher.rs:214-217).
  A replay from there can pass over a relevant change (`ReplayMayLoseAChange`); `NoLostUpdate` has
  this as its only exception: the version has expired, the task has been at the beginning since, and an
  event that needs no reconcile is replayed with a version at or after the change's.
- The documentation (README.md:141) says that changes to the source are copied to the target, and
  (README.md:270-272) that one ResourceSync can write a `SinkerContainer` that another materialises. All
  ResourceSyncs apply under one field manager (src/controller.rs:39-43), and a watch suppresses what that
  manager changed last (src/remote_watcher.rs:187-199), so the second does not see the writes of the first
  (`ChainedSyncIsMissed`). `MissedExactlyWhenTakenForOwn` says exactly which changes of source and target
  can leave a sync at rest and out of line: those that are taken for Sinker's own and make a difference.

## Model

| member | source | states |
|---|---|---|
| `JsonTree.PutFailsExactlyWhenBlocked` | src/mapping.rs:197-221 | A write fails exactly when the root or the value at some strict prefix of the path exists and is not an object |
| `JsonTree.GetAfterPut` | src/mapping.rs:192-222 | Reading at a path yields what was just written there |
| `JsonTree.PutOfGet` | src/mapping.rs:192-222 | Writing back the value that is there changes nothing |
| `JsonTree.LastPutWins` | src/mapping.rs:192-222 | Of two writes at one path the last wins, and both succeed or both fail |
| `JsonTree.PutFrame` | src/mapping.rs:192-222 | A write leaves every incomparable path reading as before |
| `JsonTree.PutsCommute` | src/mapping.rs:192-222 | Writes at incomparable paths commute, including whether they fail |
| `JsonTree.IndependentWritesSucceed` | src/mapping.rs:58-119 | Pairwise incomparable writes that are each possible all succeed together, each reads back, and all incomparable paths are untouched |
| `JsonTree.PutAllIgnoresOrder` | src/mapping.rs:58-119 | Any two orders of pairwise incomparable writes have the same outcome |
| `DotPath.SplitOnce` | src/mapping.rs:203 | The parts before and after the first separator, or nothing exactly where there is none |
| `DotPath.JoinOfSegments` | src/mapping.rs:202-217 | Joining the segments of a path gives the path back, and no segment holds a separator |
| `DotPath.SegmentsOfJoin` | src/mapping.rs:202-217 | Separator-free segments are what their joined path splits into, so a path has one reading |
| `DotPath.LeadingSegment` | src/mapping.rs:101-108 | Having the prefix `metadata.` is having first segment `metadata` with others after it, and stripping it leaves those |
| `FieldPath.Document.SetFieldPath` | src/mapping.rs:192-222 | The in-place cursor loop equals the recursive write over the dot segments; on failure, which is exactly when a non-object is in the way, the document and the value in the error are the original, whatever was inserted on the way |
| `FieldPath.Document.CleanupSubtree` | src/mapping.rs:184-190 | Removes the type and metadata members of an object in place and nothing else |
| `FieldPath.InsertStaysOnTrack` | src/mapping.rs:211 | Inserting an empty object where the path goes on does not change what the whole write yields |
| `Objects.MetaRoundTrip` | src/mapping.rs:105-111 | Metadata survives the conversion to JSON and back |
| `Objects.DecodeTouchesOneField` | src/mapping.rs:105-111 | Changing one key of the JSON of metadata changes at most the field of that name |
| `Mapping.ApplyMappings` | src/mapping.rs:48-121 | The loop over the mappings, with its early returns, computes the fold of single mappings over the fresh template |
| `Mapping.ApplyMapping` | src/mapping.rs:59-118 | One mapping: selection first, then an error for an empty mapping, a root replacement, or a field write |
| `Mapping.ReplaceRoot` | src/mapping.rs:84-95 | The in-place root replacement turns the subtree into a clone of the object it describes, with the errors of malformed subtrees; `ReplacementIsExact` says what that is |
| `Mapping.SetField` | src/mapping.rs:101-114 | A write below `metadata.` goes through the JSON of the metadata, any other into the data; `WritesGoWhereTheyAim` and `MetadataWriteIsWrite` say what comes of it |
| `Mapping.CloneResource` | src/mapping.rs:18-43 | A clone has the requested name and namespace and the given type, the source's data and labels, its annotations without the last-applied one and with every other entry, and no other metadata |
| `Mapping.BuildTarget` | src/controller.rs:185-196 | Without mappings the target is such a clone of the source; with mappings it is what they make of the fresh template |
| `Mapping.ApplyAllSplits` | src/mapping.rs:58-120 | Applying a concatenation of lists is applying one after the other, stopping at the first error |
| `MappingLaws.IndependentMappingsSucceed` | src/mapping.rs:55-119 | Mappings with incomparable data destinations whose sources select never fail, each destination reads back its own source value, the type is the requested one, and the metadata is the requested name and namespace and nothing else |
| `MappingLaws.MappingOrderIsIrrelevant` | src/mapping.rs:58-119 | Every permutation of such a list builds the same target |
| `MappingLaws.RootReplacementAbsorbs` | src/mapping.rs:75-96 | After any list that succeeds, a root replacement and any further list give what they give without the first list |
| `MappingLaws.LastReplacementDecidesType` | src/mapping.rs:75-96 | After any list that succeeds the type is the one parsed by the last root replacement, or the template's where there is none |
| `MappingLaws.TargetTypeIsRequestedExactlyWhen` | src/mapping.rs:55-96 | The target has the requested type exactly when no mapping replaces the root or the last that does parses to it |
| `MappingLaws.OtherTypesAreAccepted` | src/mapping.rs:84-95 | An embedded object of any other type is accepted, and the target gets its type |
| `MappingLaws.SelectionIsExact` | src/mapping.rs:228-250 | The root for a missing or empty path; one selected value is taken, none is null, several are an error, and so is a malformed expression |
| `MappingLaws.ReplacementIsExact` | src/mapping.rs:75-145 | For any value: each error of a root replacement and exactly when it is given, and otherwise the kind, identity, data, labels and annotations of the target, member by member |
| `MappingLaws.MappingFailsExactlyWhen` | src/mapping.rs:59-118 | A failing selection comes first, then a mapping without paths, then the errors of the replacement or write; logging the template adds none |
| `MappingLaws.FirstFailureDecides` | src/mapping.rs:58-120 | A list fails exactly when one mapping fails on what those before it made, with the error of that one |
| `MappingLaws.LastTwoTerms` | src/mapping.rs:156-167 | The version is what follows the last slash and the group what stands between it and the slash before |
| `MappingLaws.DataStaysAnObject` | src/mapping.rs:62-63 | The data of the template stays an object, so serialising it for the log never fails a mapping |
| `MappingLaws.MetadataWriteTouchesOneField` | src/mapping.rs:101-111 | A metadata write that succeeds leaves the type, the data and all other metadata fields as they were |
| `MetadataWrites.FieldsByName` | src/mapping.rs:105 | Each metadata field is serialised under its own name |
| `MetadataWrites.MetadataWriteFailsExactlyWhen` | src/mapping.rs:101-111 | A metadata write fails exactly when a non-object is in its way or its field would get a value of another type, with the error of each |
| `MetadataWrites.MetadataWriteIsWrite` | src/mapping.rs:101-111 | A metadata write that succeeds does to the JSON of the metadata what the write does to any JSON, but that a null removes the field and an unknown field is ignored |
| `MetadataWrites.MetadataWriteIsRead` | src/mapping.rs:101-111 | What is written below `metadata.` is read there, and every incomparable path of the metadata reads as before |
| `MetadataWrites.LabelIsSet` | src/mapping.rs:101-111 | A mapping to one label sets it to the string it selects and leaves all other labels and metadata as they were |
| `MetadataWrites.WritesGoWhereTheyAim` | src/mapping.rs:101-114 | A write changes the metadata exactly when its path goes on after `metadata`, and the data otherwise; the other of the two stays as it was |
| `MetadataWrites.LastMappingIsFound` | src/mapping.rs:48-121 | After any list that succeeds, what the last mapping selected in the source is what its plain destination selects in the target, in metadata or data |
| `MappingLaws.ShapeSurvives` | src/mapping.rs:55-120 | From any well-shaped template, name, namespace and the absence of type and metadata members in the data survive every successful list that does not aim at them |
| `MappingLaws.TargetIsShaped` | src/mapping.rs:48-121 | The built target has the requested name and namespace and data without apiVersion, kind and metadata |
| `MappingLaws.WrittenValueIsFound` | src/mapping.rs:228-250 | What a mapping put at a plain data path is what that path selects from the target |
| `MappingLaws.ApiVersionRoundTrip` | src/mapping.rs:152-179 | Splitting an API version and printing group and version gives it back exactly when it has no slash, or one with a nonempty group |
| `MappingLaws.MaterialiseOfToValue` | src/mapping.rs:84-145 | Taking a serialised object apart gives a clone of it: its data, labels and annotations, but for the last-applied one |
| `MappingLaws.EmbedHoldsTheSource` | src/mapping.rs:97-113 | Mapping a whole source to `spec` stores its serialisation there and nothing else |
| `MappingLaws.EmbedThenMaterialise` | src/mapping.rs:75-96 | Materialising an embedded source gives a clone of it with the requested identity, member by member; it keeps its type exactly when its API version is canonical |
| `MappingLaws.EmbedThenMaterialiseIsClone` | src/mapping.rs:75-113 | Embedding and materialising a source of the target's kind equals a direct clone exactly when the API version is canonical |
| `Finalizers.WithItemRemoved` | src/util.rs:22-25 | Retaining the unequal entries yields the list without the item |
| `Finalizers.RemovalKeepsTheOthersInOrder` | src/util.rs:22-25 | Removal keeps exactly the other entries, repetitions included, in their order |
| `Finalizers.AddThenRemove` | src/controller.rs:112-148 | Adding to a list without the finalizer writes it once, and removing it then gives the list back |
| `Status.TransitionTimeOverHistory` | src/controller.rs:365-430 | After every history the live status is that of its writes: one condition with the last write's value, reason, message and generation, and the time of the first write of the current block of equal values, or the inherited time; without writes it is unchanged |
| `Status.BlockStart` | src/controller.rs:414-430 | Every nonempty list of writes has a current unbroken block of equal values, which starts here |
| `Status.NoWritesNoChange` | src/controller.rs:391-394 | Successes of deleted resources write nothing |
| `Status.WhatIsWritten` | src/controller.rs:365-430 | What each outcome writes, in full: type, value, reason, message and generation of the one condition, and the time of the first failing condition of the live status where that has the value; successes of deleted resources write nothing |
| `Status.FindFailing` | src/controller.rs:419-427 | The first condition of the failing type, or nothing exactly where there is none |
| `Filters.MostRecent` | src/filters.rs:16-18 | The most recent entry is one of the entries |
| `Filters.MostRecentIsLastNewest` | src/filters.rs:16-18 | The most recent entry is the last of the newest ones |
| `Filters.AttributionIsExact` | src/filters.rs:11-22 | Ours, not ours and unknown, each exactly characterised by the times and by whether the last newest entry names the manager asked about |
| `Filters.OrderIrrelevantExactlyWhenNewestAgree` | src/filters.rs:11-22 | Every permutation of the entries gets the same answer exactly when the newest entries agree on being the manager's |
| `WatcherRegistry.ApplyKeepsOneToOne` | src/remote_watcher_manager.rs:25-83 | Each operation keeps entries and unjoined tasks one to one and leaves other keys alone; adding registers the key and changes nothing where it is present, and stopping removes it |
| `WatcherRegistry.RegistryStaysOneToOne` | src/remote_watcher_manager.rs:53-83 | Over every sequence of operations and tasks dying, entries and unjoined tasks stay one to one, a key keeps its task until it is stopped, and no key has two tasks |
| `WatcherRegistry.RemoteWatcherManager.AddIfNotExists` | src/remote_watcher_manager.rs:53-68 | Spawns a task for an absent key and keeps the existing one otherwise |
| `WatcherRegistry.RemoteWatcherManager.StopAndRemoveIfExists` | src/remote_watcher_manager.rs:25-74 | Removes and joins the task of the key, dead or alive, and no other |
| `WatcherRegistry.RemoteWatcherManager.StopAll` | src/remote_watcher_manager.rs:76-83 | Leaves no key registered and no task unjoined, going on past aborted tasks |
| `Reconcile.WhatAReconcileCalls` | src/controller.rs:49-340 | For every snapshot and all answers, each call that is made and exactly when: get, delete (in the background exactly when the target has finalizers), stop and start watches, both finalizer patches, fetch, build and apply |
| `Reconcile.CallsReturn` | src/controller.rs:299-340 | Every reconcile comes to an end, whatever the answers |
| `Reconcile.Reconciler.StartRemoteWatchesIfNotWatching` | src/resource_extensions.rs:19-57 | Starts the watch of the source, then that of the target, and both keys of this ResourceSync are registered; watches of other ResourceSyncs are untouched |
| `Reconcile.Reconciler.StopRemoteWatchesIfWatching` | src/resource_extensions.rs:19-58 | Stops the watch of the source, then that of the target, and neither key of this ResourceSync is registered; watches of other ResourceSyncs are untouched |
| `Reconcile.Reconciler.StopWatchesAndRemoveFinalizers` | src/controller.rs:104-129 | Both watches are gone whatever becomes of the patch, whose list is the snapshot's without Sinker's finalizer |
| `Reconcile.Reconciler.AddTargetFinalizer` | src/controller.rs:135-155 | Patches the snapshot's list followed by Sinker's finalizer and asks to be run again |
| `Reconcile.Reconciler.ReconcileDeletedResource` | src/controller.rs:49-98 | Makes exactly the calls of the cleanup for the answers it gets, fails exactly when one of them does, watches both ends where it waits for the target and none where it gives it up, and leaves other ResourceSyncs' watches alone |
| `Reconcile.Reconciler.ReconcileNormally` | src/controller.rs:161-234 | Fetches, builds and applies in that order and no further than the first failure, succeeds exactly when all three do, and then the source and the target are watched; otherwise no watch changes |
| `Reconcile.Reconciler.ReconcileHelper` | src/controller.rs:299-340 | Makes exactly the calls of `WhatAReconcileCalls` in the order of the protocol, fails exactly when one of them fails, asks for a requeue exactly when it added the finalizer, and leaves both ends watched, neither, or all watches as they were |
| `Reconcile.Reconciler.Reconcile` | src/controller.rs:256-293 | Reads and writes the status exactly when the outcome calls for it, from the live status, with the contents of `Status.WhatIsWritten`, and fails where that fails |
| `Reconcile.UpdateStatus` | src/controller.rs:272-292 | The live status is read only where a write is due, the write has the value, reason, message, generation and time that the outcome and the live status call for, and a failing read or write becomes the outcome |
| `Lifecycle.NoAbandonedTarget` | src/controller.rs:49-340 | In every run, once the target has been applied, the live ResourceSync exists and keeps Sinker's finalizer until a later reconcile of a deleted snapshot finds the target absent, its deletion disabled, or the APIs unresolvable with deletion forced |
| `Lifecycle.NothingAppliedAfterRelease` | src/controller.rs:331-339 | After such a release no reconcile of any run applies the target again |
| `Lifecycle.AppliedOnlyUnderFinalizer` | src/controller.rs:331-339 | The target is only ever applied while the live ResourceSync holds Sinker's finalizer |
| `Lifecycle.EveryWrittenList` | src/controller.rs:112-148 | Every finalizer list written in a run comes from the snapshot's list, with Sinker's finalizer appended once or removed completely |
| `Lifecycle.WaitsOnlyForDeletedTarget` | src/controller.rs:63-98 | In every run, a cleanup goes on to watch its target and wait only after it has seen the target being deleted or has deleted it |
| `Lifecycle.FinalizerGuardsWatches` | src/controller.rs:104-229 | In every run in which no reconcile begins in an exposed world, however far the cache lags: no watch without Sinker's finalizer, none left when the finalizer is patched away even if the patch fails, and both ends watched once the watches have been started |
| `Lifecycle.LeakExactlyWhenExposed` | src/controller.rs:56-98 | From every idle world reached without a leak, a reconcile that begins there can leave a watch without the finalizer exactly when the cached version is deleted, has the finalizer and does not disable target deletion, and the live one lacks it or is gone |
| `Lifecycle.StaleSnapshotLeaksAWatch` | src/controller.rs:56-79 | For every deleted ResourceSync that waits for its target, held by something else or not, a run with a stale cache reaches a watch after the finalizer is gone |
| `RemoteWatcher.RemoteWatcher.ReceiveEvent` | src/remote_watcher.rs:174-226 | One event: sends a reconcile for a deletion, a change not known to be Sinker's, or an error other than 410; goes on from the event's version, from 0 after a 410, from where it was after another error, and gives up at an object without a version |
| `RemoteWatcher.RemoteWatcher.Listen` | src/remote_watcher.rs:160-227 | One connection: it ends normally exactly when it is accepted, does not break, and every change in it has a version; it sends one reconcile for each event that calls for one, and a failure leaves the task owing a reconcile |
| `RemoteWatcher.RemoteWatcher.Watch` | src/remote_watcher.rs:139-154 | Reconnects from the version reached until a connection fails |
| `RemoteWatcher.RemoteWatcher.Start` | src/remote_watcher.rs:103-133 | Fetches, then sends, then watches from the fetched version; sends nothing where no version is known |
| `RemoteWatcher.RemoteWatcher.Run` | src/remote_watcher.rs:77-97 | Every failed start is answered by one reconcile and another start |
| `RemoteWatcher.RelevantExactlyWhen` | src/remote_watcher.rs:179-199 | A change calls for a reconcile exactly when it is a deletion, its managed fields are missing, empty or untimed, or their last newest entry names another manager than Sinker, or none |
| `RemoteWatcher.AnsweredExactlyWhenCalledFor` | src/remote_watcher.rs:77-227 | The next thing a task does is to send a reconcile exactly after a failure, after a fetch, and after an event that calls for one |
| `RemoteWatcher.HearingCalls` | src/remote_watcher.rs:160-227 | A stream of any events is heard to its end exactly when every change in it has a version, and sends one reconcile for each event up to there that calls for one, errors included |
| `RemoteWatcher.LastEventDecides` | src/remote_watcher.rs:174-226 | A stream goes on at the version of its last event, at 0 after a 410, and where it was after another error |
| `RemoteWatcher.HearingAdvances` | src/remote_watcher.rs:174-226 | A stream of changes with bookmarks anywhere delivers the changes that follow once each, sends one reconcile for each relevant one, and leaves exactly the changes after them |
| `RemoteWatcher.StreamCutsDoNotMatter` | src/remote_watcher.rs:146-226 | However a log is cut into streams that end normally, with bookmarks that may repeat a version: all of it is one stream of the log, each change of a prefix is delivered once, and version and number of reconciles are those of hearing it uncut |
| `RemoteWatcher.AnyTwoCutsAgree` | src/remote_watcher.rs:146-226 | Two cuts that deliver equally many changes deliver the same ones, send equally many reconciles and have the same changes still to come |
| `WatchSafety.NoLostUpdate` | src/remote_watcher.rs:77-227 | In every history of changes, connects, stream ends, errors of any code, unversioned events and restarts, each deletion, external or unattributable change at or before the cursor is followed by a reconcile sent after it happened, unless the version expired, the task has been at the beginning since, and a replayed event that needs no reconcile has a version at or after the change's |
| `WatchSafety.ReplayMayLoseAChange` | src/remote_watcher.rs:214-217 | For every relevant change after the first version and every later write of Sinker's own there is a history with an expiry in which a replay of the latter takes the cursor past the former and no reconcile is sent |
| `WatchSafety.VersionsGivenOut` | src/remote_watcher.rs:119-226 | A task never holds a version the server has not given out |
| `Ends.OwnEventIsSuppressed` | src/remote_watcher.rs:187-199 | The event of Sinker's own apply triggers no reconcile |
| `Ends.ForeignEventIsRelevant` | src/remote_watcher.rs:179-199 | The converse: a deletion, and a change whose last newest entry is not by Sinker or that has none, triggers a reconcile |
| `Ends.WhatCallsWillBeSent` | src/remote_watcher.rs:77-227 | Every failure of a task and every event that calls for a reconcile, in-stream errors included, leaves one due to be sent |
| `Ends.TaskAccounts` | src/remote_watcher.rs:77-227 | Every action of a task leaves it as many sends to come as before, less the one it sends, and two more at most if it is a failure |
| `Ends.RelevantChangeWillBeSent` | src/remote_watcher.rs:174-226 | Once a task has been started, wherever it stands, every relevant change leaves it with a reconcile due to be sent |
| `Ends.WillSendUntilItDoes` | src/remote_watcher.rs:77-227 | A reconcile that is due to be sent stays due through every action, failures included, until the task sends |
| `Quiescence.RunsOfLifecycle` | src/controller.rs:299-340 | Every run of the loop with its watch tasks from the start is, world by world and step by step, a run of `Lifecycle` from its start, so the guarantees there hold for it |
| `Quiescence.StepAccounts` | src/controller.rs:135-234 | Every step, API calls of a reconcile and actions of both watch tasks interleaved, takes no more from the reconciles due than the one it begins and adds no more than it causes |
| `Quiescence.EveryReconcileHasACause` | src/controller.rs:135-234 | Over every run, whatever fails and whatever others do, the reconciles begun and still due are no more than were due at the start plus one for each failing call, relevant change and repeated finalizer, two for each failing watch and three for each restart |
| `Quiescence.StepReducesWork` | src/controller.rs:222-229 | Undisturbed, every step of the controller and its tasks reduces the work left; a stream that ends and an irrelevant change by others add one, a finalizer added again because the cache lags adds a trigger of nine |
| `Quiescence.ComesToRest` | src/controller.rs:222-229 | Every undisturbed run of any length has no more reconciles than were due at its start plus one for each finalizer added again, and no more steps of the controller and its tasks than its work plus one for each stream end, one for each irrelevant change by others, and nine for each finalizer added again |
| `Quiescence.GoesOnUntilRest` | src/controller.rs:135-234 | From every state of a ResourceSync nobody deletes that is not at rest, both objects having existed, the sync has a step of its own that does not fail, wherever the reconcile and both tasks stand |
| `Quiescence.ReachesRest` | src/controller.rs:135-234 | From every state whose cache has caught up, both objects having existed, a run of the controller, its tasks and the cache alone, without a failure, reaches rest |
| `Quiescence.RestMeansSynced` | src/controller.rs:135-234 | After every run from the start with failures, lag, edits, restarts and attributable changes of source and target, a sync at rest has the finalizer set, the target in line with the source as it is now, both ends watched, and nothing queued or untold |
| `Quiescence.ComesInLine` | src/controller.rs:135-234 | After every run from the start with failures, lag, edits, restarts and attributable changes, a sync left to itself has a run that ends in line with its source, with no more reconciles than were due plus the finalizers added again |
| `Quiescence.MissedExactlyWhenTakenForOwn` | src/remote_watcher.rs:187-202 | From every synced state, a change of source or target by others, followed by anything but more changes, can leave the sync at rest without the desired target exactly when the watch takes it for Sinker's own and the new value differs from what the target holds (source) or should hold (target) |
| `Quiescence.ChainedSyncIsMissed` | src/controller.rs:39-43 | From every synced state, a write of the source by another ResourceSync under the same field manager that makes a difference can leave the sync at rest out of line |
| `Quiescence.UnattributedChangeIsMissed` | src/remote_watcher.rs:187-202 | From every synced state, a change of the target taken for Sinker's own that makes a difference can leave the sync at rest out of line |
| `Departure.MoveKeepsAttended` | src/controller.rs:49-129 | Every step of the controller, its tasks, the cache and others, the deletion included, keeps this: while Sinker's finalizer holds a deleted ResourceSync, another reconcile is certain to begin, or the running cleanup goes on to release the target or to watch it, or the target is there and both ends have watch tasks |
| `Departure.RestingExactlyWhen` | src/controller.rs:299-340 | Nothing is left to do exactly when nothing is queued or under way and every task there is has been told of all changes |
| `Departure.CleanupIsNotStuck` | src/controller.rs:49-129 | After every run from the start with a deletion, failures, lag, restarts and changes of any kind, once the cache shows the deletion and nothing is left to do: Sinker's finalizer has gone, or the target is still present and both watches follow their streams and have been told of every change |
| `Metrics.StepKeepsBalance` | src/metrics.rs:99-143 | Every move of any attempt keeps each series equal to the number of attempts it stands for |
| `Metrics.MetricsAreConserved` | src/metrics.rs:99-143 | In every interleaving the gauge is the number of attempts in flight, the four counters sum to the completed attempts, and with none mid-drop the observations are completed plus abandoned attempts |
| `Metrics.LabelOf` | src/metrics.rs:113-118 | Each of the four labels is given for exactly one kind of result |
| `Metrics.ControllerMetrics.Instrument` | src/metrics.rs:99-143 | One attempt leaves the gauge as it was, observes one time, and counts once, under the label of its result, if it completes |

## Left out

- RemoteWatcher.StreamCutsDoNotMatter: is about streams that end normally, because a broken stream starts over with a GET, which `NoLostUpdate` covers.
- Quiescence.EveryReconcileHasACause: is about a ResourceSync that nobody deletes (`Departure` has the deletion) and versions that do not expire, because after an expiry the server decides how much is replayed.
- Quiescence.RestMeansSynced: takes the mappings of a source as a value that changes with it, and a GET of the source as reading it at that moment; which single changes break it is `MissedExactlyWhenTakenForOwn`.
- Objects.MetaRoundTrip: carries the metadata fields name, namespace, uid, resourceVersion, finalizers, labels and annotations; a write to another field is treated as a write to an unknown key, because its typed form is defined by the client library and nothing in the mapping engine depends on it.
- Objects.DecodeTouchesOneField: the same seven fields, for the same reason.
- MappingLaws.MetadataWriteTouchesOneField: the same seven fields, for the same reason.
- MetadataWrites.MetadataWriteIsWrite: the same seven fields, for the same reason.
- Mapping.BuildTarget: the owner reference that a local target gets in addition is not one of the modelled metadata fields.
- FieldPath.Document.SetFieldPath: the cursor is the path it stands on, and a change through it is a change of the document there; aliasing, which the borrow checker excludes, is not modelled.
- JSONPath expressions other than chains of plain member names: their results are whatever the library parameter says.
- Server-side apply merging, owner references and garbage collection, RBAC: the API server's part. An apply makes the target present.
- Discovery, kubeconfig Secrets and the namespace annotation (`cluster_client`, `api_for`): foreign I/O; resolving the APIs either succeeds or fails.
- Missing name, namespace or UID of a ResourceSync: a missing UID is one way of `Answers.built` being false; the other two stop a reconcile before its first call.
- Backoff times, the error policy's delay, queue scheduling, the generation predicate (but that a deletion passes it), shutdown order: library behaviour and plumbing.
- Edits of the spec, a ResourceSync recreated under the same name, others removing Sinker's finalizer: outside the stated assumptions.
- CLI, admin server, CRD generation, log output, metric names and histogram buckets: no property beyond their text.
