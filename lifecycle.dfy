/** The subject-lifecycle state machine of one LiveLink source, one SDK
    callback or engine call per transition, each taken as one atomic step.
    The state mirrors the source's fields; calls into the engine's LiveLink
    client are recorded, in order, in `calls`. */
module Lifecycle {
  import opened LiveLinkTypes
  import opened Text
  import opened BoundedQueue
  import Skeleton
  import PosePipeline

  datatype SourceState = SourceState(
    hasClient: bool,               // the LiveLink client pointer is set
    enabled: bool,
    connected: bool,               // last status poll saw the SDK connected
    statusText: string,
    sourceGuid: int,
    prefix: string,                // subject-name prefix, fixed at construction
    haveActors: map<int, SubjectKey>,
    queuedActorIds: seq<int>,      // ids to add
    queuedActorIdsToRemove: seq<int>,
    queuedARTags: seq<int>,
    streams: set<StreamFeature>,   // what the source last asked the SDK to stream
    calls: seq<ClientCall>)

  // ---------------------------------------------------------------------------
  // Construction and session

  /** The features requested when the source starts streaming. */
  function StreamFeatures(useTCP: bool, streamARTags: bool, streamCompressed: bool): set<StreamFeature>
  {
    {GlobalPoses, BlendShapes, OnlyRootTranslation}
    + (if useTCP then {Tcp} else {})
    + (if streamARTags then {ArTags} else {})
    + (if streamCompressed then {Compressed} else {})
  }

  /** Global poses, blend shapes and root-only translation are always
      requested; each optional feature exactly when its flag is set. */
  lemma StreamFeaturesMeaning(useTCP: bool, streamARTags: bool, streamCompressed: bool)
    ensures var f := StreamFeatures(useTCP, streamARTags, streamCompressed);
      && {GlobalPoses, BlendShapes, OnlyRootTranslation} <= f
      && (Tcp in f <==> useTCP)
      && (ArTags in f <==> streamARTags)
      && (Compressed in f <==> streamCompressed)
  {
  }

  function Initial(prefix: string, useTCP: bool, streamARTags: bool, streamCompressed: bool): (r: SourceState)
    ensures QueuesFit(r) && r.haveActors == map[] && r.calls == []
    ensures !r.hasClient && r.enabled && !r.connected && r.prefix == prefix
  {
    SourceState(false, true, false, "connecting", 0, prefix, map[], [], [], [],
                StreamFeatures(useTCP, streamARTags, streamCompressed), [])
  }

  // ---------------------------------------------------------------------------
  // Invariants

  predicate QueuesFit(s: SourceState)
  {
    && Fits(s.queuedActorIds, QueueCapacity)
    && Fits(s.queuedActorIdsToRemove, QueueCapacity)
    && Fits(s.queuedARTags, QueueCapacity)
  }

  /** Static data was pushed for `key` by one of `calls`. */
  predicate AnnouncedIn(calls: seq<ClientCall>, key: SubjectKey)
  {
    exists j :: 0 <= j < |calls| && calls[j].PushStatic? && calls[j].key == key
  }

  /** Every mapped subject has had its static data pushed. */
  predicate AllAnnounced(s: SourceState)
  {
    forall id :: id in s.haveActors ==> AnnouncedIn(s.calls, s.haveActors[id])
  }

  /** Frame data only ever goes to a subject whose static data came earlier. */
  predicate FramesFollowStatic(calls: seq<ClientCall>)
  {
    forall k :: 0 <= k < |calls| && calls[k].PushFrame? ==> AnnouncedIn(calls[..k], calls[k].key)
  }

  predicate Inv(s: SourceState)
  {
    QueuesFit(s) && AllAnnounced(s) && FramesFollowStatic(s.calls)
  }

  lemma InitialInv(prefix: string, useTCP: bool, streamARTags: bool, streamCompressed: bool)
    ensures Inv(Initial(prefix, useTCP, streamARTags, streamCompressed))
  {
  }

  lemma AnnouncedExtend(calls: seq<ClientCall>, c: ClientCall, key: SubjectKey)
    requires AnnouncedIn(calls, key)
    ensures AnnouncedIn(calls + [c], key)
  {
    var j :| 0 <= j < |calls| && calls[j].PushStatic? && calls[j].key == key;
    assert (calls + [c])[j] == calls[j];
  }

  /** A step that makes no client call and only drops or keeps entries. */
  lemma KeepInvNoCall(s: SourceState, t: SourceState)
    requires Inv(s) && QueuesFit(t)
    requires t.calls == s.calls
    requires forall id :: id in t.haveActors ==> id in s.haveActors && t.haveActors[id] == s.haveActors[id]
    ensures Inv(t)
  {
  }

  /** A step that appends one client call: a frame only for an announced
      subject, and every new or changed entry announced by that very call. */
  lemma KeepInvAppend(s: SourceState, t: SourceState, c: ClientCall)
    requires Inv(s) && QueuesFit(t)
    requires t.calls == s.calls + [c]
    requires c.PushFrame? ==> AnnouncedIn(s.calls, c.key)
    requires forall id :: id in t.haveActors ==>
      (id in s.haveActors && t.haveActors[id] == s.haveActors[id]) || (c.PushStatic? && c.key == t.haveActors[id])
    ensures Inv(t)
  {
    forall id | id in t.haveActors ensures AnnouncedIn(t.calls, t.haveActors[id]) {
      if id in s.haveActors && t.haveActors[id] == s.haveActors[id] {
        AnnouncedExtend(s.calls, c, t.haveActors[id]);
      } else {
        assert t.calls[|s.calls|] == c;
      }
    }
    forall k | 0 <= k < |t.calls| && t.calls[k].PushFrame?
      ensures AnnouncedIn(t.calls[..k], t.calls[k].key)
    {
      if k < |s.calls| {
        assert t.calls[..k] == s.calls[..k];
      } else {
        assert t.calls[..k] == s.calls;
      }
    }
  }

  // ---------------------------------------------------------------------------
  // SDK callbacks

  /** Actor-changed callback: a stop or delete of a known actor queues its
      removal; any other mode of an unknown actor queues its addition; the
      other two cases only log. The client pointer is not consulted. */
  function ActorChanged(s: SourceState, actorId: int, mode: ActorMode): (r: SourceState)
    ensures r.haveActors == s.haveActors && r.calls == s.calls && r.queuedARTags == s.queuedARTags
    ensures QueuesFit(s) ==> QueuesFit(r)
  {
    if actorId in s.haveActors then
      if IsGone(mode) then s.(queuedActorIdsToRemove := Enqueue(s.queuedActorIdsToRemove, QueueCapacity, actorId))
      else s
    else if IsGone(mode) then s
    else s.(queuedActorIds := Enqueue(s.queuedActorIds, QueueCapacity, actorId))
  }

  /** The decision table, each row stated as what changes and what does not. */
  lemma ActorChangedTable(s: SourceState, actorId: int, mode: ActorMode)
    ensures var t := ActorChanged(s, actorId, mode);
      && (actorId in s.haveActors && IsGone(mode) ==>
            t == s.(queuedActorIdsToRemove := Enqueue(s.queuedActorIdsToRemove, QueueCapacity, actorId)))
      && (actorId in s.haveActors && !IsGone(mode) ==> t == s)
      && (actorId !in s.haveActors && IsGone(mode) ==> t == s)
      && (actorId !in s.haveActors && !IsGone(mode) ==>
            t == s.(queuedActorIds := Enqueue(s.queuedActorIds, QueueCapacity, actorId)))
  {
  }

  lemma ActorChangedKeepsInv(s: SourceState, actorId: int, mode: ActorMode)
    requires Inv(s)
    ensures Inv(ActorChanged(s, actorId, mode))
  {
    KeepInvNoCall(s, ActorChanged(s, actorId, mode));
  }

  /** New-pose callback: nothing without a client; an unknown actor is queued
      for addition; a known actor gets the pose's frame pushed, unless the
      pose is discarded. */
  function NewPose(s: SourceState, actor: Actor, pose: Pose): (r: SourceState)
    requires pose.numTransforms <= |actor.joints|
    ensures r.haveActors == s.haveActors && r.queuedActorIdsToRemove == s.queuedActorIdsToRemove
    ensures r.queuedARTags == s.queuedARTags
    ensures r.calls == s.calls
      || (&& actor.id in s.haveActors
          && |r.calls| == |s.calls| + 1 && r.calls[..|s.calls|] == s.calls
          && r.calls[|s.calls|].PushFrame? && r.calls[|s.calls|].key == s.haveActors[actor.id])
  {
    if !s.hasClient then s
    else if actor.id !in s.haveActors then s.(queuedActorIds := Enqueue(s.queuedActorIds, QueueCapacity, actor.id))
    else match PosePipeline.PoseFrame(actor, pose)
      case None => s
      case Some(f) => s.(calls := s.calls + [PushFrame(s.haveActors[actor.id], f)])
  }

  /** Gating of the new-pose callback. */
  lemma NewPoseGating(s: SourceState, actor: Actor, pose: Pose)
    requires pose.numTransforms <= |actor.joints|
    ensures var t := NewPose(s, actor, pose);
      && (!s.hasClient ==> t == s)
      && (s.hasClient && actor.id !in s.haveActors ==>
            t == s.(queuedActorIds := Enqueue(s.queuedActorIds, QueueCapacity, actor.id)))
      && (s.hasClient && actor.id in s.haveActors ==>
            t.haveActors == s.haveActors && t.queuedActorIds == s.queuedActorIds
            && (PosePipeline.PoseFrame(actor, pose).None? ==> t.calls == s.calls)
            && (PosePipeline.PoseFrame(actor, pose).Some? ==>
                  t.calls == s.calls + [PushFrame(s.haveActors[actor.id], PosePipeline.PoseFrame(actor, pose).value)]))
  {
  }

  lemma NewPoseKeepsInv(s: SourceState, actor: Actor, pose: Pose)
    requires pose.numTransforms <= |actor.joints|
    requires Inv(s)
    ensures Inv(NewPose(s, actor, pose))
  {
    var t := NewPose(s, actor, pose);
    if s.hasClient && actor.id in s.haveActors && PosePipeline.PoseFrame(actor, pose).Some? {
      KeepInvAppend(s, t, PushFrame(s.haveActors[actor.id], PosePipeline.PoseFrame(actor, pose).value));
    } else {
      KeepInvNoCall(s, t);
    }
  }

  /** One detected tag (the i-th of its callback): a known tag gets a rigid
      frame, an unknown one is queued for registration. */
  function TagStep(s: SourceState, tag: ArTag, i: nat): (r: SourceState)
    ensures r.haveActors == s.haveActors && r.queuedActorIds == s.queuedActorIds && r.hasClient == s.hasClient
  {
    if tag.id in s.haveActors then s.(calls := s.calls + [PushFrame(s.haveActors[tag.id], Rigid(Computed(i)))])
    else s.(queuedARTags := Enqueue(s.queuedARTags, QueueCapacity, tag.id))
  }

  /** Tags i .. |tags|-1 of one callback, in order. */
  function TagsFrom(s: SourceState, tags: seq<ArTag>, i: nat): (r: SourceState)
    requires i <= |tags|
    ensures r.haveActors == s.haveActors && r.queuedActorIds == s.queuedActorIds && r.hasClient == s.hasClient
    decreases |tags| - i
  {
    if i == |tags| then s else TagsFrom(TagStep(s, tags[i], i), tags, i + 1)
  }

  /** AR-tag callback: nothing without a client, else every tag in order. */
  function ArTagsDetected(s: SourceState, tags: seq<ArTag>): (r: SourceState)
    ensures r.haveActors == s.haveActors && r.queuedActorIds == s.queuedActorIds
  {
    if !s.hasClient then s else TagsFrom(s, tags, 0)
  }

  /** The frames pushed for the known tags among tags i .. |tags|-1. */
  function KnownTagFrames(have: map<int, SubjectKey>, tags: seq<ArTag>, i: nat): seq<ClientCall>
    requires i <= |tags|
    decreases |tags| - i
  {
    if i == |tags| then []
    else (if tags[i].id in have then [PushFrame(have[tags[i].id], Rigid(Computed(i)))] else [])
         + KnownTagFrames(have, tags, i + 1)
  }

  /** The ids of the unknown tags among tags i .. |tags|-1. */
  function UnknownTagIds(have: map<int, SubjectKey>, tags: seq<ArTag>, i: nat): seq<int>
    requires i <= |tags|
    decreases |tags| - i
  {
    if i == |tags| then []
    else (if tags[i].id in have then [] else [tags[i].id]) + UnknownTagIds(have, tags, i + 1)
  }

  /** The tag loop changes no mapping: it pushes one frame per known tag, in
      order, and offers every unknown tag's id to the tag queue, in order. */
  lemma {:induction false} TagsFromEffect(s: SourceState, tags: seq<ArTag>, i: nat)
    requires i <= |tags|
    ensures var t := TagsFrom(s, tags, i);
      && t == s.(calls := t.calls, queuedARTags := t.queuedARTags)
      && t.calls == s.calls + KnownTagFrames(s.haveActors, tags, i)
      && t.queuedARTags == EnqueueAll(s.queuedARTags, QueueCapacity, UnknownTagIds(s.haveActors, tags, i))
    decreases |tags| - i
  {
    if i < |tags| {
      var s1 := TagStep(s, tags[i], i);
      TagsFromEffect(s1, tags, i + 1);
      assert s1.haveActors == s.haveActors;
      if tags[i].id in s.haveActors {
        TagStepKnown(s, tags, i);
      } else {
        TagStepUnknown(s, tags, i);
      }
    }
  }

  lemma TagStepKnown(s: SourceState, tags: seq<ArTag>, i: nat)
    requires i < |tags| && tags[i].id in s.haveActors
    ensures UnknownTagIds(s.haveActors, tags, i) == UnknownTagIds(s.haveActors, tags, i + 1)
    ensures s.calls + KnownTagFrames(s.haveActors, tags, i)
         == TagStep(s, tags[i], i).calls + KnownTagFrames(s.haveActors, tags, i + 1)
    ensures TagStep(s, tags[i], i).queuedARTags == s.queuedARTags
  {
    var f := PushFrame(s.haveActors[tags[i].id], Rigid(Computed(i)));
    assert KnownTagFrames(s.haveActors, tags, i) == [f] + KnownTagFrames(s.haveActors, tags, i + 1);
    assert s.calls + ([f] + KnownTagFrames(s.haveActors, tags, i + 1))
        == (s.calls + [f]) + KnownTagFrames(s.haveActors, tags, i + 1);
  }

  lemma TagStepUnknown(s: SourceState, tags: seq<ArTag>, i: nat)
    requires i < |tags| && tags[i].id !in s.haveActors
    ensures EnqueueAll(s.queuedARTags, QueueCapacity, UnknownTagIds(s.haveActors, tags, i))
         == EnqueueAll(TagStep(s, tags[i], i).queuedARTags, QueueCapacity, UnknownTagIds(s.haveActors, tags, i + 1))
    ensures KnownTagFrames(s.haveActors, tags, i) == KnownTagFrames(s.haveActors, tags, i + 1)
    ensures TagStep(s, tags[i], i).calls == s.calls
  {
    var ids := UnknownTagIds(s.haveActors, tags, i);
    assert ids == [tags[i].id] + UnknownTagIds(s.haveActors, tags, i + 1);
    assert ids[0] == tags[i].id;
    assert ids[1..] == UnknownTagIds(s.haveActors, tags, i + 1);
  }

  lemma {:induction false} TagsFromKeepsInv(s: SourceState, tags: seq<ArTag>, i: nat)
    requires i <= |tags|
    requires Inv(s)
    ensures Inv(TagsFrom(s, tags, i))
    decreases |tags| - i
  {
    if i < |tags| {
      var s1 := TagStep(s, tags[i], i);
      var tag := tags[i];
      if tag.id in s.haveActors {
        KeepInvAppend(s, s1, PushFrame(s.haveActors[tag.id], Rigid(Computed(i))));
      } else {
        EnqueueKeepsFit(s.queuedARTags, QueueCapacity, tag.id);
        KeepInvNoCall(s, s1);
      }
      TagsFromKeepsInv(s1, tags, i + 1);
    }
  }

  lemma ArTagsDetectedKeepsInv(s: SourceState, tags: seq<ArTag>)
    requires Inv(s)
    ensures Inv(ArTagsDetected(s, tags))
  {
    if s.hasClient {
      TagsFromKeepsInv(s, tags, 0);
    }
  }

  // ---------------------------------------------------------------------------
  // Subject registration

  /** The key of an actor's subject: the source guid and the prefixed name. */
  function ActorKey(s: SourceState, actor: Actor): SubjectKey
  {
    SubjectKey(s.sourceGuid, s.prefix + actor.name)
  }

  /** The key of an AR tag's subject: "<prefix>ARTag <id>". */
  function TagKey(s: SourceState, id: int): SubjectKey
  {
    SubjectKey(s.sourceGuid, s.prefix + "ARTag " + IntToString(id))
  }

  /** The static data registered for an actor: its skeleton when it has more
      than one joint, a prop otherwise. */
  function ActorStaticData(actor: Actor): StaticData
  {
    if |actor.joints| > 1 then Skeleton.SkeletonDefinition(actor) else Skeleton.PropStaticData()
  }

  /** Registers an actor unless it is already mapped or there is no client. */
  function AddSubject(s: SourceState, actor: Actor): (r: SourceState)
    ensures r.haveActors.Keys == s.haveActors.Keys + (if s.hasClient then {actor.id} else {})
    ensures r == s.(haveActors := r.haveActors, calls := r.calls)
  {
    if actor.id in s.haveActors then s
    else if !s.hasClient then s
    else s.(calls := s.calls + [PushStatic(ActorKey(s, actor), ActorStaticData(actor))],
            haveActors := s.haveActors[actor.id := ActorKey(s, actor)])
  }

  /** Registration is idempotent and never touches another id's entry. */
  lemma AddSubjectIdempotent(s: SourceState, actor: Actor)
    ensures AddSubject(AddSubject(s, actor), actor) == AddSubject(s, actor)
    ensures var t := AddSubject(s, actor);
      && (forall id :: id != actor.id ==> (id in t.haveActors <==> id in s.haveActors))
      && (forall id :: id != actor.id && id in s.haveActors ==> t.haveActors[id] == s.haveActors[id])
      && (actor.id !in s.haveActors && s.hasClient ==> t.haveActors[actor.id] == ActorKey(s, actor))
      && (actor.id in s.haveActors || !s.hasClient ==> t == s)
  {
  }

  lemma AddSubjectKeepsInv(s: SourceState, actor: Actor)
    requires Inv(s)
    ensures Inv(AddSubject(s, actor))
  {
    var t := AddSubject(s, actor);
    if actor.id !in s.haveActors && s.hasClient {
      KeepInvAppend(s, t, PushStatic(ActorKey(s, actor), ActorStaticData(actor)));
    }
  }

  /** Every actor of an SDK snapshot, in order. */
  function AddSubjects(s: SourceState, actors: seq<Actor>): (r: SourceState)
    ensures r == s.(haveActors := r.haveActors, calls := r.calls)
    ensures s.haveActors.Keys <= r.haveActors.Keys
    decreases |actors|
  {
    if actors == [] then s else AddSubjects(AddSubject(s, actors[0]), actors[1..])
  }

  lemma {:induction false} AddSubjectsKeepsInv(s: SourceState, actors: seq<Actor>)
    requires Inv(s)
    ensures Inv(AddSubjects(s, actors))
    decreases |actors|
  {
    if actors != [] {
      AddSubjectKeepsInv(s, actors[0]);
      AddSubjectsKeepsInv(AddSubject(s, actors[0]), actors[1..]);
    }
  }

  /** The engine hands the source its client: remember it and register the
      SDK's current actors. */
  function ReceiveClient(s: SourceState, guid: int, actors: seq<Actor>): (r: SourceState)
    ensures r.hasClient && r.sourceGuid == guid && r.prefix == s.prefix
    ensures s.haveActors.Keys <= r.haveActors.Keys
  {
    AddSubjects(s.(sourceGuid := guid, hasClient := true), actors)
  }

  /** After receiving the client every actor of the snapshot is mapped, each
      new one under the key of a snapshot actor with its id. */
  lemma {:induction false} AddSubjectsMapsAll(s: SourceState, actors: seq<Actor>)
    requires s.hasClient
    ensures var t := AddSubjects(s, actors);
      && t.hasClient
      && (forall id :: id in t.haveActors <==> id in s.haveActors || exists a :: a in actors && a.id == id)
      && (forall id :: id in s.haveActors ==> t.haveActors[id] == s.haveActors[id])
      && (forall id :: id in t.haveActors && id !in s.haveActors ==>
            exists a :: a in actors && a.id == id && t.haveActors[id] == ActorKey(s, a))
    decreases |actors|
  {
    if actors != [] {
      var s1 := AddSubject(s, actors[0]);
      AddSubjectsMapsAll(s1, actors[1..]);
      var t := AddSubjects(s, actors);
      forall id | id in t.haveActors && id !in s.haveActors
        ensures exists a :: a in actors && a.id == id && t.haveActors[id] == ActorKey(s, a)
      {
        if id in s1.haveActors {
          assert id == actors[0].id && s1.haveActors[id] == ActorKey(s, actors[0]);
          assert actors[0] in actors;
        } else {
          var a :| a in actors[1..] && a.id == id && t.haveActors[id] == ActorKey(s1, a);
          assert a in actors;
        }
      }
      forall id ensures id in t.haveActors <==> id in s.haveActors || exists a :: a in actors && a.id == id {
        if exists a :: a in actors[1..] && a.id == id {
          var a :| a in actors[1..] && a.id == id;
          assert a in actors;
        }
        if exists a :: a in actors && a.id == id {
          var a :| a in actors && a.id == id;
          if a != actors[0] {
            assert a in actors[1..];
          }
        }
      }
    }
  }

  lemma ReceiveClientKeepsInv(s: SourceState, guid: int, actors: seq<Actor>)
    requires Inv(s)
    ensures Inv(ReceiveClient(s, guid, actors))
  {
    AddSubjectsKeepsInv(s.(sourceGuid := guid, hasClient := true), actors);
  }

  // ---------------------------------------------------------------------------
  // The poll step

  /** The SDK's actor lookup: every actor is filed under its own id. */
  predicate WellKeyed(session: map<int, Actor>)
  {
    forall id :: id in session ==> session[id].id == id
  }

  /** Unregister a dequeued id if it is mapped; skip it otherwise. */
  function RemoveStep(s: SourceState, id: int): (r: SourceState)
    ensures r.haveActors.Keys == s.haveActors.Keys - {id}
    ensures r == s.(haveActors := r.haveActors, calls := r.calls)
  {
    if id in s.haveActors then s.(calls := s.calls + [RemoveSubject(s.haveActors[id])], haveActors := s.haveActors - {id})
    else s
  }

  /** Drain the removal queue. */
  function DrainRemovals(s: SourceState): (r: SourceState)
    ensures r.queuedActorIdsToRemove == [] && r.haveActors.Keys <= s.haveActors.Keys
    decreases |s.queuedActorIdsToRemove|
  {
    if s.queuedActorIdsToRemove == [] then s
    else
      var id := s.queuedActorIdsToRemove[0];
      DrainRemovals(RemoveStep(s.(queuedActorIdsToRemove := s.queuedActorIdsToRemove[1..]), id))
  }

  /** Drain the add queue: a resolvable id is registered, an unresolvable one
      is collected for requeueing (after `requeue`). */
  function DrainAdds(s: SourceState, session: map<int, Actor>, requeue: seq<int>): (r: (SourceState, seq<int>))
    ensures r.0.queuedActorIds == [] && s.haveActors.Keys <= r.0.haveActors.Keys
    ensures |r.1| <= |requeue| + |s.queuedActorIds|
    decreases |s.queuedActorIds|
  {
    if s.queuedActorIds == [] then (s, requeue)
    else
      var id := s.queuedActorIds[0];
      var s1 := s.(queuedActorIds := s.queuedActorIds[1..]);
      if id in session then DrainAdds(AddSubject(s1, session[id]), session, requeue)
      else DrainAdds(s1, session, requeue + [id])
  }

  /** Register a dequeued AR tag: push its prop definition and map it
      (replacing any previous mapping of that id). */
  function TagRegister(s: SourceState, id: int): (r: SourceState)
    ensures r.haveActors.Keys == s.haveActors.Keys + {id}
  {
    s.(calls := s.calls + [PushStatic(TagKey(s, id), Skeleton.PropStaticData())],
       haveActors := s.haveActors[id := TagKey(s, id)])
  }

  /** Drain the AR-tag queue. */
  function DrainTags(s: SourceState): (r: SourceState)
    ensures r.queuedARTags == [] && s.haveActors.Keys <= r.haveActors.Keys
    decreases |s.queuedARTags|
  {
    if s.queuedARTags == [] then s
    else
      var id := s.queuedARTags[0];
      DrainTags(TagRegister(s.(queuedARTags := s.queuedARTags[1..]), id))
  }

  /** The ids among `ids` the session cannot resolve, in order. */
  function Unresolved(ids: seq<int>, session: map<int, Actor>): (r: seq<int>)
    ensures |r| <= |ids|
  {
    if ids == [] then []
    else (if ids[0] in session then [] else [ids[0]]) + Unresolved(ids[1..], session)
  }

  /** The ids handed back are exactly the queued ids the session lacks. */
  lemma {:induction false} UnresolvedMembers(ids: seq<int>, session: map<int, Actor>)
    ensures forall id :: id in Unresolved(ids, session) <==> id in ids && id !in session
    decreases |ids|
  {
    if ids != [] {
      UnresolvedMembers(ids[1..], session);
      assert forall id :: id in ids <==> id == ids[0] || id in ids[1..];
    }
  }

  /** The poll step: removals, then additions (unresolvable ids are put back
      after the drain), then AR-tag registrations. Nothing without a client. */
  function Update(s: SourceState, session: map<int, Actor>): (r: SourceState)
    ensures !s.hasClient ==> r == s
    ensures s.hasClient ==> r.queuedARTags == []
  {
    if !s.hasClient then s
    else
      var s1 := DrainRemovals(s);
      var (s2, requeue) := DrainAdds(s1, session, []);
      DrainTags(s2.(queuedActorIds := EnqueueAll(s2.queuedActorIds, QueueCapacity, requeue)))
  }

  /** The removal drain unmaps exactly the queued ids, telling the client
      to remove the subject of each one that was mapped; it only appends
      removals to the call log. */
  lemma {:induction false} DrainRemovalsEffect(s: SourceState)
    ensures var t := DrainRemovals(s);
      && t == s.(haveActors := t.haveActors, calls := t.calls, queuedActorIdsToRemove := [])
      && (forall id :: id in t.haveActors <==> id in s.haveActors && id !in s.queuedActorIdsToRemove)
      && (forall id :: id in t.haveActors ==> t.haveActors[id] == s.haveActors[id])
      && |s.calls| <= |t.calls| && t.calls[..|s.calls|] == s.calls
      && (forall k :: |s.calls| <= k < |t.calls| ==> t.calls[k].RemoveSubject?)
      && (forall id :: id in s.haveActors && id in s.queuedActorIdsToRemove ==>
            RemoveSubject(s.haveActors[id]) in t.calls)
    decreases |s.queuedActorIdsToRemove|
  {
    if s.queuedActorIdsToRemove != [] {
      var q := s.queuedActorIdsToRemove;
      var s1 := RemoveStep(s.(queuedActorIdsToRemove := q[1..]), q[0]);
      DrainRemovalsEffect(s1);
      var t := DrainRemovals(s);
      assert forall id :: id in q <==> id == q[0] || id in q[1..];
      assert t.calls[..|s.calls|] == t.calls[..|s1.calls|][..|s.calls|];
      if q[0] in s.haveActors {
        assert t.calls[|s.calls|] == t.calls[..|s1.calls|][|s.calls|] == RemoveSubject(s.haveActors[q[0]]);
      }
      forall id | id in s.haveActors && id in q
        ensures RemoveSubject(s.haveActors[id]) in t.calls
      {
        if id == q[0] {
          assert t.calls[|s.calls|] == RemoveSubject(s.haveActors[id]);
        } else {
          assert id in s1.haveActors && id in q[1..];
        }
      }
    }
  }

  /** The add drain hands back every unresolvable id, in order, after the
      ones collected before. */
  lemma {:induction false} DrainAddsRequeue(s: SourceState, session: map<int, Actor>, requeue: seq<int>)
    ensures DrainAdds(s, session, requeue).1 == requeue + Unresolved(s.queuedActorIds, session)
    decreases |s.queuedActorIds|
  {
    if s.queuedActorIds != [] {
      var q := s.queuedActorIds;
      var id := q[0];
      var s1 := s.(queuedActorIds := q[1..]);
      if id in session {
        var s2 := AddSubject(s1, session[id]);
        assert s2.queuedActorIds == q[1..];
        DrainAddsRequeue(s2, session, requeue);
      } else {
        DrainAddsRequeue(s1, session, requeue + [id]);
        assert Unresolved(q, session) == [id] + Unresolved(q[1..], session);
        assert requeue + [id] + Unresolved(q[1..], session) == requeue + ([id] + Unresolved(q[1..], session));
      }
    }
  }

  /** The add drain changes only the registry, the call log and the add
      queue, which it empties. */
  lemma {:induction false} DrainAddsFrame(s: SourceState, session: map<int, Actor>, requeue: seq<int>)
    ensures var t := DrainAdds(s, session, requeue).0;
      t == s.(haveActors := t.haveActors, calls := t.calls, queuedActorIds := [])
    decreases |s.queuedActorIds|
  {
    if s.queuedActorIds != [] {
      var q := s.queuedActorIds;
      var id := q[0];
      var s1 := s.(queuedActorIds := q[1..]);
      if id in session {
        var s2 := AddSubject(s1, session[id]);
        assert s2 == s1.(haveActors := s2.haveActors, calls := s2.calls);
        DrainAddsFrame(s2, session, requeue);
      } else {
        DrainAddsFrame(s1, session, requeue + [id]);
      }
    }
  }

  /** The add drain maps exactly the resolvable queued ids, under their
      actor keys, and keeps every existing entry. */
  lemma {:induction false} DrainAddsEffect(s: SourceState, session: map<int, Actor>, requeue: seq<int>)
    requires s.hasClient && WellKeyed(session)
    ensures var t := DrainAdds(s, session, requeue).0;
      && (forall id :: id in t.haveActors <==> id in s.haveActors || (id in s.queuedActorIds && id in session))
      && (forall id :: id in s.haveActors ==> t.haveActors[id] == s.haveActors[id])
      && (forall id :: id !in s.haveActors && id in s.queuedActorIds && id in session ==>
            t.haveActors[id] == ActorKey(s, session[id]))
    decreases |s.queuedActorIds|
  {
    if s.queuedActorIds != [] {
      var q := s.queuedActorIds;
      var id := q[0];
      var s1 := s.(queuedActorIds := q[1..]);
      assert forall x :: x in q <==> x == id || x in q[1..];
      if id in session {
        var s2 := AddSubject(s1, session[id]);
        assert s2.hasClient && s2.sourceGuid == s.sourceGuid && s2.prefix == s.prefix;
        assert s2.queuedActorIds == q[1..];
        DrainAddsEffect(s2, session, requeue);
      } else {
        DrainAddsEffect(s1, session, requeue + [id]);
      }
    }
  }

  lemma {:induction false} DrainTagsEffect(s: SourceState)
    ensures var t := DrainTags(s);
      && t == s.(haveActors := t.haveActors, calls := t.calls, queuedARTags := [])
      && (forall id :: id in t.haveActors <==> id in s.haveActors || id in s.queuedARTags)
      && (forall id :: id in s.queuedARTags ==> t.haveActors[id] == TagKey(s, id))
      && (forall id :: id in s.haveActors && id !in s.queuedARTags ==> t.haveActors[id] == s.haveActors[id])
    decreases |s.queuedARTags|
  {
    if s.queuedARTags != [] {
      var q := s.queuedARTags;
      DrainTagsEffect(TagRegister(s.(queuedARTags := q[1..]), q[0]));
      assert forall id :: id in q <==> id == q[0] || id in q[1..];
    }
  }

  /** After a poll with a client the removal and tag queues are empty and the
      add queue holds exactly the ids the session could not resolve, in their
      original order: none is dropped and none retried within the poll. */
  lemma UpdateQueues(s: SourceState, session: map<int, Actor>)
    requires s.hasClient && QueuesFit(s) && WellKeyed(session)
    ensures var t := Update(s, session);
      && t.queuedActorIdsToRemove == []
      && t.queuedARTags == []
      && t.queuedActorIds == Unresolved(s.queuedActorIds, session)
      && (forall id :: id in t.queuedActorIds <==> id in s.queuedActorIds && id !in session)
      && t.hasClient == s.hasClient && t.prefix == s.prefix && t.sourceGuid == s.sourceGuid
  {
    UnresolvedMembers(s.queuedActorIds, session);
    var s1 := DrainRemovals(s);
    DrainRemovalsEffect(s);
    var (s2, requeue) := DrainAdds(s1, session, []);
    DrainAddsRequeue(s1, session, []);
    DrainAddsFrame(s1, session, []);
    EnqueueAllWhenRoom([], QueueCapacity, requeue);
    DrainTagsEffect(s2.(queuedActorIds := EnqueueAll(s2.queuedActorIds, QueueCapacity, requeue)));
  }

  /** What a poll with a client does to the registry: removals are applied
      before additions, so an id that is both removed and (resolvably) added
      ends up registered afresh; every dequeued tag is mapped to its tag key;
      every other id keeps its entry. */
  lemma UpdateRegistry(s: SourceState, session: map<int, Actor>)
    requires s.hasClient && WellKeyed(session)
    ensures var t := Update(s, session);
      var removeQ, addQ, tagQ := s.queuedActorIdsToRemove, s.queuedActorIds, s.queuedARTags;
      && (forall id :: id in tagQ ==> id in t.haveActors && t.haveActors[id] == TagKey(s, id))
      && (forall id :: id in addQ && id in session ==> id in t.haveActors)
      && (forall id :: id in removeQ && !(id in addQ && id in session) && id !in tagQ ==> id !in t.haveActors)
      && (forall id :: id !in tagQ && id in addQ && id in session && (id !in s.haveActors || id in removeQ) ==>
            t.haveActors[id] == ActorKey(s, session[id]))
      && (forall id :: id in s.haveActors && id !in removeQ && id !in tagQ ==>
            id in t.haveActors && t.haveActors[id] == s.haveActors[id])
      && (forall id :: id !in s.haveActors && id !in addQ && id !in tagQ ==> id !in t.haveActors)
  {
    var s1 := DrainRemovals(s);
    DrainRemovalsEffect(s);
    var (s2, requeue) := DrainAdds(s1, session, []);
    DrainAddsFrame(s1, session, []);
    DrainAddsEffect(s1, session, []);
    var s3 := s2.(queuedActorIds := EnqueueAll(s2.queuedActorIds, QueueCapacity, requeue));
    DrainTagsEffect(s3);
    assert ActorKey(s1, session[0]) == ActorKey(s, session[0]) <== 0 in session;
  }

  /** The add drain only appends to the call log. */
  lemma {:induction false} DrainAddsKeepsCalls(s: SourceState, session: map<int, Actor>, requeue: seq<int>)
    ensures var t := DrainAdds(s, session, requeue).0;
      |s.calls| <= |t.calls| && t.calls[..|s.calls|] == s.calls
    decreases |s.queuedActorIds|
  {
    if s.queuedActorIds != [] {
      var q := s.queuedActorIds;
      var s1 := s.(queuedActorIds := q[1..]);
      var t := DrainAdds(s, session, requeue).0;
      if q[0] in session {
        var s2 := AddSubject(s1, session[q[0]]);
        DrainAddsKeepsCalls(s2, session, requeue);
        assert t.calls[..|s.calls|] == t.calls[..|s2.calls|][..|s.calls|];
      } else {
        DrainAddsKeepsCalls(s1, session, requeue + [q[0]]);
      }
    }
  }

  /** The tag drain only appends to the call log. */
  lemma {:induction false} DrainTagsKeepsCalls(s: SourceState)
    ensures var t := DrainTags(s);
      |s.calls| <= |t.calls| && t.calls[..|s.calls|] == s.calls
    decreases |s.queuedARTags|
  {
    if s.queuedARTags != [] {
      var q := s.queuedARTags;
      var s1 := TagRegister(s.(queuedARTags := q[1..]), q[0]);
      DrainTagsKeepsCalls(s1);
      var t := DrainTags(s);
      assert t.calls[..|s.calls|] == t.calls[..|s1.calls|][..|s.calls|];
    }
  }

  /** A poll with a client tells the client to remove the subject of every
      mapped id queued for removal. */
  lemma UpdateUnregisters(s: SourceState, session: map<int, Actor>)
    requires s.hasClient
    ensures forall id :: id in s.haveActors && id in s.queuedActorIdsToRemove ==>
      RemoveSubject(s.haveActors[id]) in Update(s, session).calls
  {
    var s1 := DrainRemovals(s);
    DrainRemovalsEffect(s);
    var (s2, requeue) := DrainAdds(s1, session, []);
    DrainAddsKeepsCalls(s1, session, []);
    var s3 := s2.(queuedActorIds := EnqueueAll(s2.queuedActorIds, QueueCapacity, requeue));
    DrainTagsKeepsCalls(s3);
    var t := Update(s, session);
    assert t.calls[..|s1.calls|] == s1.calls by {
      assert t.calls[..|s1.calls|] == t.calls[..|s3.calls|][..|s1.calls|];
    }
    forall id | id in s.haveActors && id in s.queuedActorIdsToRemove
      ensures RemoveSubject(s.haveActors[id]) in t.calls
    {
      var c := RemoveSubject(s.haveActors[id]);
      var k :| 0 <= k < |s1.calls| && s1.calls[k] == c;
      assert t.calls[k] == t.calls[..|s1.calls|][k];
    }
  }

  lemma {:induction false} DrainRemovalsKeepsInv(s: SourceState)
    requires Inv(s)
    ensures Inv(DrainRemovals(s))
    decreases |s.queuedActorIdsToRemove|
  {
    if s.queuedActorIdsToRemove != [] {
      var q := s.queuedActorIdsToRemove;
      var s1 := s.(queuedActorIdsToRemove := q[1..]);
      KeepInvNoCall(s, s1);
      var id := q[0];
      if id in s1.haveActors {
        KeepInvAppend(s1, RemoveStep(s1, id), RemoveSubject(s1.haveActors[id]));
      }
      DrainRemovalsKeepsInv(RemoveStep(s1, id));
    }
  }

  lemma {:induction false} DrainAddsKeepsInv(s: SourceState, session: map<int, Actor>, requeue: seq<int>)
    requires Inv(s)
    ensures Inv(DrainAdds(s, session, requeue).0)
    decreases |s.queuedActorIds|
  {
    if s.queuedActorIds != [] {
      var q := s.queuedActorIds;
      var s1 := s.(queuedActorIds := q[1..]);
      KeepInvNoCall(s, s1);
      if q[0] in session {
        AddSubjectKeepsInv(s1, session[q[0]]);
        DrainAddsKeepsInv(AddSubject(s1, session[q[0]]), session, requeue);
      } else {
        DrainAddsKeepsInv(s1, session, requeue + [q[0]]);
      }
    }
  }

  lemma {:induction false} DrainTagsKeepsInv(s: SourceState)
    requires Inv(s)
    ensures Inv(DrainTags(s))
    decreases |s.queuedARTags|
  {
    if s.queuedARTags != [] {
      var q := s.queuedARTags;
      var s1 := s.(queuedARTags := q[1..]);
      KeepInvNoCall(s, s1);
      KeepInvAppend(s1, TagRegister(s1, q[0]), PushStatic(TagKey(s1, q[0]), Skeleton.PropStaticData()));
      DrainTagsKeepsInv(TagRegister(s1, q[0]));
    }
  }

  lemma UpdateKeepsInv(s: SourceState, session: map<int, Actor>)
    requires Inv(s)
    ensures Inv(Update(s, session))
  {
    if s.hasClient {
      var s1 := DrainRemovals(s);
      DrainRemovalsKeepsInv(s);
      var (s2, requeue) := DrainAdds(s1, session, []);
      DrainAddsKeepsInv(s1, session, []);
      EnqueueAllKeepsFit(s2.queuedActorIds, QueueCapacity, requeue);
      var s3 := s2.(queuedActorIds := EnqueueAll(s2.queuedActorIds, QueueCapacity, requeue));
      KeepInvNoCall(s2, s3);
      DrainTagsKeepsInv(s3);
    }
  }

  // ---------------------------------------------------------------------------
  // Status, validity, disable, shutdown

  /** Status poll: returns the status text; only the edge into "connected"
      queues every actor of the SDK's snapshot for addition. */
  function GetSourceStatus(s: SourceState, status: ConnectionStatus, actorIds: seq<int>): (r: (SourceState, string))
    ensures r.0.haveActors == s.haveActors && r.0.calls == s.calls
    ensures r.1 == "connected" <==> status == Connected
  {
    match status
    case Disconnected => (s.(connected := false), "connecting")
    case Connecting => (s.(connected := false), "connecting...")
    case Connected =>
      if !s.connected then
        (s.(queuedActorIds := EnqueueAll(s.queuedActorIds, QueueCapacity, actorIds), connected := true), "connected")
      else (s, "connected")
    case UnknownStatus(_) => (s, "unknown")
  }

  /** Actors are queued only on the disconnected-to-connected edge: a second
      connected poll changes nothing, and a poll that is not connected
      re-arms the edge. */
  lemma GetSourceStatusEdge(s: SourceState, status: ConnectionStatus, actorIds: seq<int>, moreIds: seq<int>)
    ensures var (t, _) := GetSourceStatus(s, status, actorIds);
      && (status == Connected && !s.connected ==>
            t.queuedActorIds == EnqueueAll(s.queuedActorIds, QueueCapacity, actorIds) && t.connected)
      && (!(status == Connected && !s.connected) ==> t.queuedActorIds == s.queuedActorIds)
      && (status == Connected ==> GetSourceStatus(t, Connected, moreIds) == (t, "connected"))
      && ((status == Disconnected || status == Connecting) ==> !t.connected)
      && t.haveActors == s.haveActors && t.calls == s.calls
  {
  }

  lemma GetSourceStatusKeepsInv(s: SourceState, status: ConnectionStatus, actorIds: seq<int>)
    requires Inv(s)
    ensures Inv(GetSourceStatus(s, status, actorIds).0)
  {
    EnqueueAllKeepsFit(s.queuedActorIds, QueueCapacity, actorIds);
    KeepInvNoCall(s, GetSourceStatus(s, status, actorIds).0);
  }

  /** Validity check: enabled and connected; otherwise the status text
      becomes "failed to connect". */
  function IsSourceStillValid(s: SourceState, status: ConnectionStatus): (r: (SourceState, bool))
    ensures r.1 <==> s.enabled && status == Connected
    ensures r.0.haveActors == s.haveActors && r.0.calls == s.calls
  {
    var valid := s.enabled && status == Connected;
    (if valid then s else s.(statusText := "failed to connect"), valid)
  }

  /** Disable: stop streaming, forget every mapping, drop the client. */
  function Disable(s: SourceState): (r: SourceState)
    ensures !r.hasClient && !r.enabled && r.haveActors == map[]
    ensures r.calls == s.calls && r.queuedActorIds == s.queuedActorIds
  {
    s.(statusText := "disabled", streams := {}, haveActors := map[], hasClient := false, enabled := false)
  }

  /** Shutdown request: stop streaming and drop the client; always agrees. */
  function RequestSourceShutdown(s: SourceState): (r: (SourceState, bool))
    ensures r.1 && !r.0.hasClient && r.0.streams == {}
    ensures r.0.haveActors == s.haveActors && r.0.calls == s.calls
  {
    (s.(streams := {}, hasClient := false), true)
  }

  /** Valid exactly when enabled and connected; a failed check only changes
      the status text. */
  lemma IsSourceStillValidMeaning(s: SourceState, status: ConnectionStatus)
    ensures var (t, valid) := IsSourceStillValid(s, status);
      && (valid <==> s.enabled && status == Connected)
      && (valid ==> t == s)
      && (!valid ==> t == s.(statusText := "failed to connect"))
  {
  }

  /** Disable forgets every subject, drops the client, stops streaming and
      marks the source disabled, leaving the queues as they are; a shutdown
      request drops the client and stops streaming, keeping the mappings. */
  lemma DisableAndShutdownEffect(s: SourceState)
    ensures var t := Disable(s);
      && t.haveActors == map[] && !t.hasClient && !t.enabled && t.streams == {}
      && t.statusText == "disabled"
      && t.queuedActorIds == s.queuedActorIds && t.queuedActorIdsToRemove == s.queuedActorIdsToRemove
      && t.queuedARTags == s.queuedARTags && t.calls == s.calls
    ensures var (t, ok) := RequestSourceShutdown(s);
      && ok && !t.hasClient && t.streams == {}
      && t.haveActors == s.haveActors && t.enabled == s.enabled && t.calls == s.calls
  {
  }

  lemma DisableAndShutdownKeepInv(s: SourceState)
    requires Inv(s)
    ensures Inv(Disable(s)) && Inv(RequestSourceShutdown(s).0)
  {
  }

  /** Without a client every pose, tag, registration and poll is a no-op; a
      disabled source is never valid again. The actor-changed callback does
      not consult the client and still queues. */
  lemma NoClientIsInert(s: SourceState, actor: Actor, pose: Pose, tags: seq<ArTag>,
                        session: map<int, Actor>, status: ConnectionStatus)
    requires pose.numTransforms <= |actor.joints|
    requires !s.hasClient
    ensures NewPose(s, actor, pose) == s
    ensures ArTagsDetected(s, tags) == s
    ensures AddSubject(s, actor) == s
    ensures Update(s, session) == s
    ensures !IsSourceStillValid(Disable(s), status).1
    ensures actor.id !in Disable(s).haveActors && |s.queuedActorIds| < QueueCapacity ==>
      ActorChanged(Disable(s), actor.id, OtherMode(0)).queuedActorIds == s.queuedActorIds + [actor.id]
  {
  }

  /** A stop for an actor never registered changes nothing, and a later poll
      finds the registry as it was. */
  lemma StopOfUnknownActorIsNoOp(s: SourceState, actorId: int, session: map<int, Actor>)
    requires actorId !in s.haveActors && WellKeyed(session)
    requires s.hasClient && s.queuedActorIds == [] && s.queuedActorIdsToRemove == [] && s.queuedARTags == []
    ensures ActorChanged(s, actorId, Stopped) == s
    ensures Update(ActorChanged(s, actorId, Stopped), session).haveActors == s.haveActors
  {
    UpdateRegistry(s, session);
    var t := Update(s, session);
    assert forall id :: id in t.haveActors <==> id in s.haveActors;
  }

  /** Add, remove, add for a new actor before any poll: the remove is dropped
      (the actor is not yet mapped), and the poll registers the actor. */
  lemma AddRemoveAddScenario(s: SourceState, actorId: int, session: map<int, Actor>)
    requires s.hasClient && WellKeyed(session) && actorId in session
    requires actorId !in s.haveActors && actorId !in s.queuedARTags
    requires |s.queuedActorIds| + 2 <= QueueCapacity
    ensures var t := ActorChanged(ActorChanged(ActorChanged(s, actorId, OtherMode(0)), actorId, Stopped), actorId, OtherMode(0));
      && t.queuedActorIds == s.queuedActorIds + [actorId, actorId]
      && t.queuedActorIdsToRemove == s.queuedActorIdsToRemove
      && actorId in Update(t, session).haveActors
      && Update(t, session).haveActors[actorId] == ActorKey(s, session[actorId])
  {
    var t := ActorChanged(ActorChanged(ActorChanged(s, actorId, OtherMode(0)), actorId, Stopped), actorId, OtherMode(0));
    assert t == s.(queuedActorIds := s.queuedActorIds + [actorId] + [actorId]);
    assert actorId in t.queuedActorIds;
    UpdateRegistry(t, session);
  }
}
