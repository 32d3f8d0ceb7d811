# CapturyLiveLink — a Dafny model of the LiveLink source

CapturyLiveLink is an Unreal Engine LiveLink plugin. It streams skeletons, poses
and AR tags from a Captury motion-capture server into the engine. This project
models its core and proves properties of the model:

- **The LiveLink source** (`CapturyLiveLinkSource`). The Captury SDK calls it
  from its own thread: an actor changed, a new pose arrived, AR tags were
  detected. The engine's LiveLink client calls it from the game thread:
  receive the client, poll (`Update`), ask for status and validity, disable,
  shut down. Three bounded queues carry work between the two
  sides. Each is created with size 10; the engine's circular queue rounds that
  up to 16 slots and keeps one free, so each holds 15 ids. The queues carry
  actor ids to add, actor ids to remove, and AR-tag ids to register.
  The map `haveActors` from an actor id to its subject key is the subject
  registry.
- **The pose pipeline**: the per-joint parent check, the output shape and
  order of a pushed frame (a synthetic "Root" bone in front of a "Hips"
  skeleton, or one rigid transform for a prop), and the blend-shape weights.
- **Skeleton registration**: the bone names with dots replaced, parents
  shifted by the synthetic root, and blend-shape property names.
- **Source naming**: process-wide bookkeeping of how many sources exist and
  which index each host has taken, and the subject-name prefix derived from
  them.
- **The configuration widget**: the `host;tcp;artags;compressed` connection
  string, its parse back into settings, and the creation of a source from it.

## Layout

| file | module | what |
|---|---|---|
| `text.dfy` | `Text` | `Option`; decimal printing (`%d`) and its round trip |
| `bounded_queue.dfy` | `BoundedQueue` | try-enqueue that drops when full; capacity 15 (size 10, rounded by the circular queue) |
| `types.dfy` | `LiveLinkTypes` | actors, joints, poses, AR tags, SDK modes and statuses, subject keys, frames, static data, client calls |
| `skeleton.dfy` | `Skeleton` | skeleton and prop static data |
| `pose.dfy` | `PosePipeline` | the parent check (as written and corrected) and the frame a pose yields |
| `lifecycle.dfy` | `Lifecycle` | the source's state as a value, one transition function per callback or engine call, the invariant they keep, and what the poll step does |
| `directory.dfy` | `SourceDirectory` | source count, per-host index sets, subject prefix (a class) |
| `source.dfy` | `LiveLinkSource` | the source as a class, with each method proved equal to its `Lifecycle` transition |
| `config.dfy` | `ConfigWidget` | connection string, parse, and the widget as a class |

The source's operations update its fields in place, so `LiveLinkSource.Source`
is a class. Its `ghost function State()` packages those fields as a
`Lifecycle.SourceState`. Each method ensures `State() ==
Lifecycle.X(old(State()), ...)`, and the properties of the transition
functions are proved as lemmas in `Lifecycle`. The loops (the AR-tag loop,
the three queue drains, the requeue, the snapshot registration and the
status-edge enqueue) are `while` loops. Their invariants say that the
remaining work, applied to the current state, gives the transition's result.

Calls into the engine's LiveLink client are recorded, in order, as a log
`calls` of `PushStatic`, `PushFrame` and `RemoveSubject`. The invariant
`Lifecycle.Inv` has three parts:

- every queue fits its capacity;
- every mapped subject was announced by a `PushStatic`;
- every `PushFrame` in the log follows a `PushStatic` for the same key.

Every transition keeps it.

SDK queries are parameters:

- `Captury_getActor` is a map `session` from id to actor, filed under its own
  id (`WellKeyed`);
- `Captury_getActors` is the list of actors or actor ids of a snapshot;
- `Captury_getConnectionStatus` is a `ConnectionStatus` argument.

Host-name resolution in the widget is a function `resolve: string ->
Option<string>`. The requested streams are a set of `StreamFeature`s
instead of a bit mask.

On prefixes the model follows the code (`CapturyLiveLinkSource.cpp:323-328`).
The prefix is fixed when a source is constructed. It stays empty unless more
than one source exists at that moment. It is then `host:` for index 1 and
`host{i}:` for any other index. So two sources opened one after the other on
the same host are named with `""` and `host{2}:`, not `host:` and `host{2}:`
(`SourceDirectory.TwoSourcesOnOneHost`). `host:` is given only to a later
source that reuses a freed index 1 (`SourceDirectory.ReuseAfterRelease`).

## Model

| member | source | states |
|---|---|---|
| Text.NatToStringRoundTrip | Source/CapturyLiveLink/Private/CapturyLiveLinkSource.cpp:327 | the `%d` rendering of an index reads back as the same number |
| Text.NatToStringInjective | Source/CapturyLiveLink/Private/CapturyLiveLinkSource.cpp:327 | distinct indexes print differently |
| BoundedQueue.QueueCapacityValue | Source/CapturyLiveLink/Private/CapturyLiveLinkSource.cpp:311 | the queues, created with size 10, hold 15 ids: the circular queue rounds the size up to 16 slots and keeps one free |
| BoundedQueue.Enqueue | Source/CapturyLiveLink/Private/CapturyLiveLinkSource.cpp:75 | a try-enqueue appends the id when the queue has room and otherwise leaves the queue as it was |
| BoundedQueue.EnqueueAll | Source/CapturyLiveLink/Private/CapturyLiveLinkSource.cpp:478-481 | enqueueing a batch never shrinks the queue and adds at most the batch's length |
| BoundedQueue.EnqueueAllTakesPrefix | Source/CapturyLiveLink/Private/CapturyLiveLinkSource.cpp:478-481 | closed form: the queue becomes its old contents followed by the longest prefix of the batch that fits; the rest is dropped |
| BoundedQueue.EnqueueKeepsFit | Source/CapturyLiveLink/Private/CapturyLiveLinkSource.cpp:75 | one try-enqueue keeps a queue within capacity and keeps what it held |
| BoundedQueue.EnqueueAllKeepsFit | Source/CapturyLiveLink/Private/CapturyLiveLinkSource.cpp:478-481 | enqueueing a batch keeps the bound and never reorders or loses the earlier contents |
| BoundedQueue.EnqueueAllWhenRoom | Source/CapturyLiveLink/Private/CapturyLiveLinkSource.cpp:478-481 | when the batch fits, the queue becomes its old contents followed by the batch |
| Skeleton.ReplaceDots | Source/CapturyLiveLink/Private/CapturyLiveLinkSource.cpp:385-386 | same length; every '.' becomes '_' and every other character is unchanged |
| Skeleton.ReplaceDotsIdempotent | Source/CapturyLiveLink/Private/CapturyLiveLinkSource.cpp:386 | no dot survives, and replacing again changes nothing |
| Skeleton.PropStaticData | Source/CapturyLiveLink/Private/CapturyLiveLinkSource.cpp:355-364 | a prop is transform static data with scale not supported |
| Skeleton.SkeletonDefinition | Source/CapturyLiveLink/Private/CapturyLiveLinkSource.cpp:366-402 | skeleton static data with one bone name and one parent per joint plus the synthetic root for "Hips", a "Root" bone with parent -1 in front, and one property name per blend shape |
| Skeleton.SkeletonNamesHaveNoDots | Source/CapturyLiveLink/Private/CapturyLiveLinkSource.cpp:384-398 | no bone or property name of a skeleton definition holds a dot |
| Skeleton.PropertyNames | Source/CapturyLiveLink/Private/CapturyLiveLinkSource.cpp:393-398 | the blend-shape loop yields one property name per blend shape, in order, with dots replaced |
| Skeleton.SetupSkeletonDefinition | Source/CapturyLiveLink/Private/CapturyLiveLinkSource.cpp:366-402 | the loops build exactly the skeleton definition `SkeletonDefinition` |
| Skeleton.SkeletonDefinitionShape | Source/CapturyLiveLink/Private/CapturyLiveLinkSource.cpp:373-399 | a "Root" bone with parent -1 exactly for a "Hips" skeleton; bone k+off is joint k with dots replaced and parent shifted by off; blend-shape names in order |
| Skeleton.SkeletonDefinitionKeepsOrder | Source/CapturyLiveLink/Private/CapturyLiveLinkSource.cpp:376-389 | a topologically ordered skeleton stays ordered after the root is prepended, and every former root hangs below the synthetic root |
| PosePipeline.ParentAcceptedMeans | Source/CapturyLiveLink/Private/CapturyLiveLinkSource.cpp:175-179 | the corrected parent check accepts exactly: for joint 0 a parent <= 0, for joint i > 0 a parent in 0 .. i-1 |
| PosePipeline.ScanAsWritten | Source/CapturyLiveLink/Private/CapturyLiveLinkSource.cpp:163-215 | the loop as written reports an out-of-range read only at a joint whose parent passed the written guard yet is not an earlier joint; when it passes, every joint's parent is accepted |
| PosePipeline.Scan | Source/CapturyLiveLink/Private/CapturyLiveLinkSource.cpp:163-179 | the corrected per-joint scan never reads a parent array out of range, and passes only when every remaining joint has an accepted parent |
| PosePipeline.ScanDiscardedIff | Source/CapturyLiveLink/Private/CapturyLiveLinkSource.cpp:163-179 | the scan discards the pose iff some remaining joint has a parent the check rejects |
| PosePipeline.ScanCorrectsOnlyOutOfRange | Source/CapturyLiveLink/Private/CapturyLiveLinkSource.cpp:175-215 | the correction agrees with the check as written wherever that one stays in range, and discards every pose the written one would read out of range |
| PosePipeline.SelfParentReadsOutOfRange | Source/CapturyLiveLink/Private/CapturyLiveLinkSource.cpp:175-215 | a joint that is its own parent passes the written check and reads the parent's scale out of range |
| PosePipeline.OrphanJointReadsOutOfRange | Source/CapturyLiveLink/Private/CapturyLiveLinkSource.cpp:175-215 | a non-first joint with parent -1 skips the check and reads index -1 |
| PosePipeline.BoneTransforms | Source/CapturyLiveLink/Private/CapturyLiveLinkSource.cpp:157-239 | one bone per input transform, in order, behind an identity "Root" exactly for a "Hips" skeleton |
| PosePipeline.OutputFrame | Source/CapturyLiveLink/Private/CapturyLiveLinkSource.cpp:236-255 | an animation frame exactly for more than one joint, carrying the bones and the blend-shape weights; otherwise a rigid transform that is the identity exactly when no transform was computed |
| PosePipeline.PoseFrame | Source/CapturyLiveLink/Private/CapturyLiveLinkSource.cpp:151-255 | a frame is produced only when every joint has an accepted parent, and it is an animation frame exactly for a multi-joint actor |
| PosePipeline.BuildFrame | Source/CapturyLiveLink/Private/CapturyLiveLinkSource.cpp:151-255 | the joint loop and the weight copy give exactly the reference frame `PoseFrame`, or nothing for a discarded pose |
| PosePipeline.PoseFrameShape | Source/CapturyLiveLink/Private/CapturyLiveLinkSource.cpp:151-250 | more than one joint gives a bone array of numTransforms bones, plus a leading identity exactly for "Hips", with bone k+off computed from transform k and the weights copied in order; otherwise a single rigid transform |
| PosePipeline.PoseDiscardedIff | Source/CapturyLiveLink/Private/CapturyLiveLinkSource.cpp:163-179 | a pose is dropped iff one of its joints has a rejected parent |
| PosePipeline.OrderedSkeletonIsPushed | Source/CapturyLiveLink/Private/CapturyLiveLinkSource.cpp:163-179 | a well-ordered skeleton with a single root is never dropped |
| PosePipeline.HipsSpineScenario | Source/CapturyLiveLink/Private/CapturyLiveLinkSource.cpp:151-240 | Hips(-1), Spine(0) yields Root, Hips, Spine |
| Lifecycle.StreamFeaturesMeaning | Source/CapturyLiveLink/Private/CapturyLiveLinkSource.cpp:344-351 | global poses, blend shapes and root-only translation always; TCP, AR tags and compression exactly when their flags are set |
| Lifecycle.Initial | Source/CapturyLiveLink/Private/CapturyLiveLinkSource.cpp:311-353 | a new source has no client, is enabled and not connected, maps nothing, has made no client call, and its queues fit |
| Lifecycle.InitialInv | Source/CapturyLiveLink/Private/CapturyLiveLinkSource.cpp:311 | a new source satisfies the invariant |
| Lifecycle.ActorChanged | Source/CapturyLiveLink/Private/CapturyLiveLinkSource.cpp:43-77 | the actor-changed callback only touches the add and removal queues, keeping them within capacity |
| Lifecycle.ActorChangedTable | Source/CapturyLiveLink/Private/CapturyLiveLinkSource.cpp:43-77 | the four-case decision table: known and gone queues a removal; unknown and not gone queues an addition; the other two change nothing |
| Lifecycle.ActorChangedKeepsInv | Source/CapturyLiveLink/Private/CapturyLiveLinkSource.cpp:43-77 | the actor-changed callback keeps the invariant |
| Lifecycle.NewPose | Source/CapturyLiveLink/Private/CapturyLiveLinkSource.cpp:97-255 | a pose changes neither the registry nor the removal and tag queues; it either makes no client call or pushes exactly one frame, under the actor's registered key |
| Lifecycle.NewPoseGating | Source/CapturyLiveLink/Private/CapturyLiveLinkSource.cpp:97-255 | no client: nothing; unknown actor: queued for addition; known actor: the frame is pushed under its key, unless the pose is discarded |
| Lifecycle.NewPoseKeepsInv | Source/CapturyLiveLink/Private/CapturyLiveLinkSource.cpp:97-255 | the new-pose callback keeps the invariant; frames go only to announced subjects |
| Lifecycle.TagStep | Source/CapturyLiveLink/Private/CapturyLiveLinkSource.cpp:263-309 | one tag step changes neither the registry, nor the add queue, nor the client |
| Lifecycle.ArTagsDetected | Source/CapturyLiveLink/Private/CapturyLiveLinkSource.cpp:263-309 | the AR-tag callback changes neither the registry nor the add queue |
| Lifecycle.TagsFromEffect | Source/CapturyLiveLink/Private/CapturyLiveLinkSource.cpp:268-308 | the tag loop pushes one rigid frame per known tag, in order, and offers every unknown tag to the tag queue, in order, changing nothing else |
| Lifecycle.ArTagsDetectedKeepsInv | Source/CapturyLiveLink/Private/CapturyLiveLinkSource.cpp:263-309 | the AR-tag callback keeps the invariant |
| Lifecycle.AddSubject | Source/CapturyLiveLink/Private/CapturyLiveLinkSource.cpp:404-428 | registration maps the actor's id exactly when the client is set, and changes only the registry and the call log |
| Lifecycle.AddSubjectIdempotent | Source/CapturyLiveLink/Private/CapturyLiveLinkSource.cpp:404-428 | registration is idempotent, maps the actor under "prefix + name" when new and the client is set, and touches no other id |
| Lifecycle.AddSubjectKeepsInv | Source/CapturyLiveLink/Private/CapturyLiveLinkSource.cpp:404-428 | registration keeps the invariant |
| Lifecycle.AddSubjects | Source/CapturyLiveLink/Private/CapturyLiveLinkSource.cpp:430-444 | registering a snapshot changes only the registry and the call log, and keeps every mapped id |
| Lifecycle.AddSubjectsMapsAll | Source/CapturyLiveLink/Private/CapturyLiveLinkSource.cpp:430-444 | after registering a snapshot, exactly the earlier ids plus the snapshot's ids are mapped, earlier entries keep their keys, and each newly mapped id carries the key of a snapshot actor with that id |
| Lifecycle.ReceiveClient | Source/CapturyLiveLink/Private/CapturyLiveLinkSource.cpp:521-529 | after receiving a client the source has one, with the given id and its prefix unchanged, and every mapped id stays mapped |
| Lifecycle.ReceiveClientKeepsInv | Source/CapturyLiveLink/Private/CapturyLiveLinkSource.cpp:521-529 | receiving the client and registering the snapshot keeps the invariant |
| Lifecycle.UnresolvedMembers | Source/CapturyLiveLink/Private/CapturyLiveLinkSource.cpp:469-476 | the ids set aside are exactly the queued ids the SDK cannot resolve |
| Lifecycle.RemoveStep | Source/CapturyLiveLink/Private/CapturyLiveLinkSource.cpp:455-467 | one removal unmaps exactly that id and changes only the registry and the call log |
| Lifecycle.DrainRemovals | Source/CapturyLiveLink/Private/CapturyLiveLinkSource.cpp:455-467 | the removal drain empties its queue and only unmaps ids |
| Lifecycle.DrainRemovalsEffect | Source/CapturyLiveLink/Private/CapturyLiveLinkSource.cpp:455-467 | the removal drain empties its queue and unmaps exactly the queued ids, keeping all other entries; it keeps the earlier client calls, appends only `RemoveSubject` calls, and removes the subject of every mapped queued id |
| Lifecycle.DrainAdds | Source/CapturyLiveLink/Private/CapturyLiveLinkSource.cpp:469-476 | the add drain empties the add queue, only maps ids, and sets aside at most the queued ids |
| Lifecycle.DrainAddsRequeue | Source/CapturyLiveLink/Private/CapturyLiveLinkSource.cpp:469-476 | the add drain sets aside every unresolvable id, in order |
| Lifecycle.DrainAddsFrame | Source/CapturyLiveLink/Private/CapturyLiveLinkSource.cpp:469-476 | the add drain empties the add queue and changes only the registry and the call log |
| Lifecycle.DrainAddsEffect | Source/CapturyLiveLink/Private/CapturyLiveLinkSource.cpp:469-476 | the add drain maps exactly the resolvable queued ids, under their actor keys, and keeps every existing entry |
| Lifecycle.TagRegister | Source/CapturyLiveLink/Private/CapturyLiveLinkSource.cpp:484-494 | registering a tag maps its id |
| Lifecycle.DrainTags | Source/CapturyLiveLink/Private/CapturyLiveLinkSource.cpp:484-494 | the tag drain empties its queue and only maps ids |
| Lifecycle.DrainTagsEffect | Source/CapturyLiveLink/Private/CapturyLiveLinkSource.cpp:484-494 | the tag drain empties its queue and maps every queued tag id to "prefix + ARTag id", replacing an earlier entry |
| Lifecycle.Update | Source/CapturyLiveLink/Private/CapturyLiveLinkSource.cpp:446-495 | a poll without a client changes nothing; with one, it empties the tag queue |
| Lifecycle.UpdateQueues | Source/CapturyLiveLink/Private/CapturyLiveLinkSource.cpp:446-495 | after a poll with a client, the removal and tag queues are empty and the add queue holds exactly the unresolvable ids, in order, none dropped |
| Lifecycle.UpdateRegistry | Source/CapturyLiveLink/Private/CapturyLiveLinkSource.cpp:446-495 | a poll applies removals before additions, so a removed and re-added actor is mapped afresh; queued tags are mapped; untouched ids keep their entries; nothing else appears |
| Lifecycle.DrainAddsKeepsCalls | Source/CapturyLiveLink/Private/CapturyLiveLinkSource.cpp:469-476 | the add drain keeps every earlier client call, in place, and only appends |
| Lifecycle.DrainTagsKeepsCalls | Source/CapturyLiveLink/Private/CapturyLiveLinkSource.cpp:484-494 | the tag drain keeps every earlier client call, in place, and only appends |
| Lifecycle.UpdateUnregisters | Source/CapturyLiveLink/Private/CapturyLiveLinkSource.cpp:455-467 | a poll with a client tells the client to remove the subject of every mapped id queued for removal |
| Lifecycle.DrainRemovalsKeepsInv | Source/CapturyLiveLink/Private/CapturyLiveLinkSource.cpp:455-467 | the removal drain keeps the invariant |
| Lifecycle.DrainAddsKeepsInv | Source/CapturyLiveLink/Private/CapturyLiveLinkSource.cpp:469-476 | the add drain keeps the invariant |
| Lifecycle.DrainTagsKeepsInv | Source/CapturyLiveLink/Private/CapturyLiveLinkSource.cpp:484-494 | the tag drain keeps the invariant |
| Lifecycle.UpdateKeepsInv | Source/CapturyLiveLink/Private/CapturyLiveLinkSource.cpp:446-495 | the poll step keeps the invariant, including the requeue bound |
| Lifecycle.GetSourceStatus | Source/CapturyLiveLink/Private/CapturyLiveLinkSource.cpp:565-591 | the status poll leaves the registry and the call log alone and reports "connected" exactly for a connected status |
| Lifecycle.GetSourceStatusEdge | Source/CapturyLiveLink/Private/CapturyLiveLinkSource.cpp:565-591 | actors are queued only on the edge into "connected"; a second connected poll changes nothing; a disconnected or connecting poll re-arms the edge |
| Lifecycle.GetSourceStatusKeepsInv | Source/CapturyLiveLink/Private/CapturyLiveLinkSource.cpp:565-591 | the status poll keeps the invariant |
| Lifecycle.IsSourceStillValid | Source/CapturyLiveLink/Private/CapturyLiveLinkSource.cpp:497-506 | valid exactly when enabled and connected; the registry and the call log are untouched |
| Lifecycle.IsSourceStillValidMeaning | Source/CapturyLiveLink/Private/CapturyLiveLinkSource.cpp:497-506 | valid iff enabled and connected; a failed check only sets the status text to "failed to connect" |
| Lifecycle.Disable | Source/CapturyLiveLink/Private/CapturyLiveLinkSource.cpp:531-544 | disable leaves no client, marks the source disabled and forgets every subject, keeping the call log and the add queue |
| Lifecycle.RequestSourceShutdown | Source/CapturyLiveLink/Private/CapturyLiveLinkSource.cpp:552-563 | shutdown answers true, drops the client and stops every stream, keeping the registry and the call log |
| Lifecycle.DisableAndShutdownEffect | Source/CapturyLiveLink/Private/CapturyLiveLinkSource.cpp:531-563 | disable forgets every subject, drops the client, stops streaming and marks the source disabled, keeping the queues; shutdown drops the client, stops streaming, keeps the mappings and returns true |
| Lifecycle.DisableAndShutdownKeepInv | Source/CapturyLiveLink/Private/CapturyLiveLinkSource.cpp:531-563 | disable and shutdown keep the invariant |
| Lifecycle.NoClientIsInert | Source/CapturyLiveLink/Private/CapturyLiveLinkSource.cpp:531-544 | without a client, pose, tags, registration and poll change nothing; a disabled source is never valid; the actor-changed callback still queues |
| Lifecycle.StopOfUnknownActorIsNoOp | Source/CapturyLiveLink/Private/CapturyLiveLinkSource.cpp:66-70 | stopping an actor that was never mapped changes nothing, and a later poll leaves the registry as it was |
| Lifecycle.AddRemoveAddScenario | Source/CapturyLiveLink/Private/CapturyLiveLinkSource.cpp:50-76 | add, stop, add before any poll: the stop is dropped, the id is queued twice, and the poll maps the actor |
| LiveLinkSource.Source.constructor | Source/CapturyLiveLink/Private/CapturyLiveLinkSource.cpp:311-353 | counts the source, takes the least free index on its host, derives the prefix, and starts in the initial state with the requested streams |
| LiveLinkSource.Source.ActorChanged | Source/CapturyLiveLink/Private/CapturyLiveLinkSource.cpp:43-77 | the new state is `Lifecycle.ActorChanged` of the old |
| LiveLinkSource.Source.NewPose | Source/CapturyLiveLink/Private/CapturyLiveLinkSource.cpp:84-256 | the new state is `Lifecycle.NewPose` of the old |
| LiveLinkSource.Source.ArTagDetected | Source/CapturyLiveLink/Private/CapturyLiveLinkSource.cpp:263-309 | the new state is `Lifecycle.ArTagsDetected` of the old |
| LiveLinkSource.Source.AddSubject | Source/CapturyLiveLink/Private/CapturyLiveLinkSource.cpp:404-428 | the new state is `Lifecycle.AddSubject` of the old |
| LiveLinkSource.Source.AddSubjects | Source/CapturyLiveLink/Private/CapturyLiveLinkSource.cpp:430-444 | the new state is `Lifecycle.AddSubjects` of the old |
| LiveLinkSource.Source.ReceiveClient | Source/CapturyLiveLink/Private/CapturyLiveLinkSource.cpp:521-529 | the new state is `Lifecycle.ReceiveClient` of the old |
| LiveLinkSource.Source.Update | Source/CapturyLiveLink/Private/CapturyLiveLinkSource.cpp:446-495 | the new state is `Lifecycle.Update` of the old |
| LiveLinkSource.Source.DrainRemovals | Source/CapturyLiveLink/Private/CapturyLiveLinkSource.cpp:455-467 | the new state is `Lifecycle.DrainRemovals` of the old |
| LiveLinkSource.Source.DrainAdds | Source/CapturyLiveLink/Private/CapturyLiveLinkSource.cpp:469-476 | the new state and the set-aside ids are `Lifecycle.DrainAdds` of the old state |
| LiveLinkSource.Source.Requeue | Source/CapturyLiveLink/Private/CapturyLiveLinkSource.cpp:478-481 | only the add queue changes, to the old queue with the ids try-enqueued in order |
| LiveLinkSource.Source.DrainTags | Source/CapturyLiveLink/Private/CapturyLiveLinkSource.cpp:484-494 | the new state is `Lifecycle.DrainTags` of the old |
| LiveLinkSource.Source.GetSourceStatus | Source/CapturyLiveLink/Private/CapturyLiveLinkSource.cpp:565-591 | the new state and the text are `Lifecycle.GetSourceStatus` of the old state |
| LiveLinkSource.Source.IsSourceStillValid | Source/CapturyLiveLink/Private/CapturyLiveLinkSource.cpp:497-506 | the new state and the answer are `Lifecycle.IsSourceStillValid` of the old state |
| LiveLinkSource.Source.Disable | Source/CapturyLiveLink/Private/CapturyLiveLinkSource.cpp:531-544 | the new state is `Lifecycle.Disable` of the old |
| LiveLinkSource.Source.RequestSourceShutdown | Source/CapturyLiveLink/Private/CapturyLiveLinkSource.cpp:552-563 | the new state and the answer are `Lifecycle.RequestSourceShutdown` of the old state |
| LiveLinkSource.Source.Destroy | Source/CapturyLiveLink/Private/CapturyLiveLinkSource.cpp:508-514 | the source leaves the count and frees its index on its host |
| SourceDirectory.LeastFreeUnique | Source/CapturyLiveLink/Private/CapturyLiveLinkSource.cpp:314-318 | the index a source takes is uniquely determined: the least positive index not taken |
| SourceDirectory.LeastFree | Source/CapturyLiveLink/Private/CapturyLiveLinkSource.cpp:314-318 | the probing loop finds the least free index |
| SourceDirectory.SubjectPrefix | Source/CapturyLiveLink/Private/CapturyLiveLinkSource.cpp:323-328 | the prefix is empty exactly when at most one source exists; otherwise it starts with the host and ends with ':', and is "host:" for index 1 |
| SourceDirectory.PrefixesDistinct | Source/CapturyLiveLink/Private/CapturyLiveLinkSource.cpp:323-328 | with several sources, distinct indexes on one host give distinct prefixes, each starting with the host |
| SourceDirectory.Directory.constructor | Source/CapturyLiveLink/Private/CapturyLiveLinkSource.cpp:32-33 | no sources and no hosts at start |
| SourceDirectory.Directory.Register | Source/CapturyLiveLink/Private/CapturyLiveLinkSource.cpp:313-328 | counts the source, adds the least free index to the host's set, and returns the prefix for the new count |
| SourceDirectory.Directory.Release | Source/CapturyLiveLink/Private/CapturyLiveLinkSource.cpp:512-513 | uncounts the source and removes its index from its host's set |
| SourceDirectory.TwoSourcesOnOneHost | Source/CapturyLiveLink/Private/CapturyLiveLinkSource.cpp:313-328 | two sources on one host are prefixed "" and "host{2}:" |
| SourceDirectory.ReuseAfterRelease | Source/CapturyLiveLink/Private/CapturyLiveLinkSource.cpp:313-328 | after the first of two sources goes away, a third reuses index 1 and gets "host:" |
| ConfigWidget.ConnectionString | Source/CapturyLiveLink/Private/SCapturySourceConfigWidget.cpp:126 | the string's ';'-fields are the host's fields followed by the three flag digits |
| ConfigWidget.SplitJoin | Source/CapturyLiveLink/Private/SCapturySourceConfigWidget.cpp:143 | splitting on ';' loses nothing: joining the fields gives the input back |
| ConfigWidget.SplitFieldsHaveNoSeparator | Source/CapturyLiveLink/Private/SCapturySourceConfigWidget.cpp:143 | no field of the split holds a separator |
| ConfigWidget.CullEmptyMeaning | Source/CapturyLiveLink/Private/SCapturySourceConfigWidget.cpp:143 | culling drops exactly the empty fields |
| ConfigWidget.ParseIntoArray | Source/CapturyLiveLink/Private/SCapturySourceConfigWidget.cpp:143 | the parsed fields are exactly the non-empty ';'-fields of the input, and none is empty or holds a separator |
| ConfigWidget.CullEmptyKeeps | Source/CapturyLiveLink/Private/SCapturySourceConfigWidget.cpp:143 | fields without empty ones are kept as they are |
| ConfigWidget.ParseConnectionString | Source/CapturyLiveLink/Private/SCapturySourceConfigWidget.cpp:143-147 | the host is a non-empty field of the input without a separator; with no flag fields every flag falls back to the current setting |
| ConfigWidget.ConnectionStringFields | Source/CapturyLiveLink/Private/SCapturySourceConfigWidget.cpp:126-147 | a connection string parses to the host's fields followed by the three flag digits, so it always yields at least three fields |
| ConfigWidget.ConnectionStringRoundTrip | Source/CapturyLiveLink/Private/SCapturySourceConfigWidget.cpp:126-147 | for a non-empty host without ';', parsing the connection string gives back the host and the three flags, whatever the fallbacks |
| ConfigWidget.EmptyHostShiftsFields | Source/CapturyLiveLink/Private/SCapturySourceConfigWidget.cpp:126-147 | with an empty host the fields shift: the TCP digit becomes the host, each flag is read from the next digit, and compression falls back |
| ConfigWidget.Widget.constructor | Source/CapturyLiveLink/Private/SCapturySourceConfigWidget.cpp:25-44 | the stored settings, or the defaults 127.0.0.1, no TCP, AR tags on, no compression |
| ConfigWidget.Widget.UseTCPChanged | Source/CapturyLiveLink/Private/SCapturySourceConfigWidget.cpp:107-110 | the flag is set iff the box is checked, and nothing else changes |
| ConfigWidget.Widget.StreamARTagsChanged | Source/CapturyLiveLink/Private/SCapturySourceConfigWidget.cpp:112-115 | the flag is set iff the box is checked, and nothing else changes |
| ConfigWidget.Widget.StreamCompressedChanged | Source/CapturyLiveLink/Private/SCapturySourceConfigWidget.cpp:117-120 | the flag is set iff the box is checked, and nothing else changes |
| ConfigWidget.Widget.CreateSource | Source/CapturyLiveLink/Private/SCapturySourceConfigWidget.cpp:138-173 | an unresolvable host creates nothing and changes nothing; otherwise a fresh source on the resolved address with the parsed flags, counted, holding the least free index on its host, registered under that index, remembered, with the address saved beside the widget's own flags |
| ConfigWidget.Widget.CommitEnter | Source/CapturyLiveLink/Private/SCapturySourceConfigWidget.cpp:125-130 | Enter builds the connection string from the text and the current flags and hands it over with the source created from it, for any text: nothing when the parsed host does not resolve, otherwise a fresh source with the parsed flags, counted, holding the least free index on its host, remembered, with the address saved; the text is remembered |
| ConfigWidget.Widget.OpenSource | Source/CapturyLiveLink/Private/SCapturySourceConfigWidget.cpp:122-136 | Enter has the outcome `CommitEnter` states, for any text; Default and a focus change only remember the text; a cleared commit changes nothing |
| ConfigWidget.Widget.OkClicked | Source/CapturyLiveLink/Private/SCapturySourceConfigWidget.cpp:100-105 | the Connect button commits the remembered host text with Enter: the same handover, source, directory and saved-settings outcome as an Enter commit of that text, which stays remembered |

## Left out

- Floating-point math: quaternions, Euler angles, bind poses, scale, the Y-up to Z-up and handedness corrections. An output transform records only which input transform it came from.
- Locking and threading: the mutex, `lockedAt`/`unlockedAt`, and the interleaving of SDK and game threads. Each callback or engine call is one atomic step. One lock defect is outside the model: `Update` locks the mutex and returns without unlocking it when the client is not set (`CapturyLiveLinkSource.cpp:449-453`).
- The SDK's own behaviour: connecting, framerate, callback registration, logging, and freeing actors. `Captury_create` is taken to succeed, so streaming is always requested.
- Timestamps, `WorldTime`, subject metadata and the `trackingQuality` argument. The source does not use them in any decision.
- `setIPAddress` (`CapturyLiveLinkSource.cpp:546-550`): the model keeps the address fixed after construction. Calling it would make the destructor free the index under the new host.
- `GetSourceType` and the members the header defines inline (`GetSourceMachineName`, `CanBeDisplayedInUI`, `GetSettingsClass`, `InitializeSettings`, `OnSettingsChanged`): each returns a constant or a field, or does nothing.
- The source factory, and the creation callback's own behaviour; the widget hands the source and connection string over as a `Handover` value.
- Widget layout and Slate wiring; the config file is a `saved` field, and flushing it to disk is not modelled. The widget's source is a plain reference, not a weak pointer.
- `BoundedQueue`: the rounding of the requested size (up to a power of two, one slot kept free) is the engine's `TCircularQueue` behaviour, which is not part of this model; `CircularQueueCapacity` restates it.
- `Lifecycle.Inv`: the part "every frame follows a static push for its key" does not look at a `RemoveSubject` between the two. Subject keys can also collide: two actors with one name, or an actor named "ARTag 3" beside tag 3, map to one key, and removing either unregisters a subject the other still feeds. The model records these calls as the source makes them and proves nothing about such collisions.
- Host-name resolution: a parameter `resolve`; which of several addresses is taken is up to it.
- `LiveLinkSource.Source.NewPose`, `Lifecycle.NewPose`, `PosePipeline.BuildFrame`: require a pose to carry at most as many transforms as its actor has joints, as the SDK delivers them; the loop reads one joint per transform.
- `ConfigWidget.Widget.CreateSource`: requires the string to yield at least one field, because the source reads field 0 unconditionally. Every string the widget builds meets this (`ConnectionStringFields`).
- `Lifecycle.Unresolved`: its own contract only bounds the length; membership is stated by `Lifecycle.UnresolvedMembers`.

## Findings

| source | as written | input that shows it | evidently intended | confidence | as-written member | corrected member |
|---|---|---|---|---|---|---|
| Source/CapturyLiveLink/Private/CapturyLiveLinkSource.cpp:175-179 | the parent check rejects joint i's parent only when it is at least i+1, because the rotation count already includes joint i; a joint that is its own parent passes and line 215 reads the parent's cumulative scale, which holds only i entries | joints Hips(parent -1), Spine(parent 1) | reject any parent that is not an earlier joint, discarding the pose | not executed | PosePipeline.SelfParentReadsOutOfRange | PosePipeline.ScanCorrectsOnlyOutOfRange |
| Source/CapturyLiveLink/Private/CapturyLiveLinkSource.cpp:175-215 | a negative parent skips the check on every joint, but only joint 0 is handled as the root; a later joint with parent -1 reads the parent arrays at index -1 | joints Hips(parent -1), Spine(parent -1) | only joint 0 may be without a parent; discard the pose otherwise | not executed | PosePipeline.OrphanJointReadsOutOfRange | PosePipeline.Scan |
