/** The LiveLink source object: its fields, updated in place by the SDK
    callbacks and the engine's calls. Every method is specified by the
    transition of the same name in `Lifecycle`, on the state `State()`
    packages; what the transitions keep and guarantee is proved there. */
module LiveLinkSource {
  import opened LiveLinkTypes
  import opened Text
  import opened BoundedQueue
  import Skeleton
  import PosePipeline
  import L = Lifecycle
  import SourceDirectory

  class Source {
    const ipAddress: string
    const sourceIndex: int
    const prefix: string

    var enabled: bool
    var statusText: string
    var connected: bool
    var hasClient: bool
    var sourceGuid: int
    var haveActors: map<int, SubjectKey>
    var queuedActorIds: seq<int>
    var queuedActorIdsToRemove: seq<int>
    var queuedARTags: seq<int>
    var streams: set<StreamFeature>
    var calls: seq<ClientCall>

    ghost function State(): L.SourceState
      reads this
    {
      L.SourceState(hasClient, enabled, connected, statusText, sourceGuid, prefix, haveActors,
                    queuedActorIds, queuedActorIdsToRemove, queuedARTags, streams, calls)
    }

    /** Takes the least free index on the host, derives the prefix from it and
        the new source count, and starts streaming the requested features. */
    constructor(dir: SourceDirectory.Directory, ip: string, useTCP: bool, streamARTags: bool, streamCompressed: bool)
      modifies dir
      ensures ipAddress == ip
      ensures dir.sourceCount == old(dir.sourceCount) + 1
      ensures SourceDirectory.IsLeastFree(old(dir.Used(ip)), sourceIndex)
      ensures dir.ipAddressCounts == old(dir.ipAddressCounts)[ip := old(dir.Used(ip)) + {sourceIndex}]
      ensures prefix == SourceDirectory.SubjectPrefix(ip, dir.sourceCount, sourceIndex)
      ensures State() == L.Initial(prefix, useTCP, streamARTags, streamCompressed)
    {
      var index, p := dir.Register(ip);
      ipAddress := ip;
      sourceIndex := index;
      prefix := p;
      enabled := true;
      statusText := "connecting";
      connected := false;
      hasClient := false;
      sourceGuid := 0;
      haveActors := map[];
      queuedActorIds := [];
      queuedActorIdsToRemove := [];
      queuedARTags := [];
      calls := [];
      var what := {GlobalPoses, BlendShapes, OnlyRootTranslation};
      if useTCP {
        what := what + {Tcp};
      }
      if streamARTags {
        what := what + {ArTags};
      }
      if streamCompressed {
        what := what + {Compressed};
      }
      streams := what;
    }

    method ActorChanged(actorId: int, mode: ActorMode)
      modifies this
      ensures State() == L.ActorChanged(old(State()), actorId, mode)
    {
      if actorId in haveActors {
        if mode == Stopped || mode == Deleted {
          queuedActorIdsToRemove := Enqueue(queuedActorIdsToRemove, QueueCapacity, actorId);
        }
        return;
      }
      if mode == Stopped || mode == Deleted {
        return;
      }
      queuedActorIds := Enqueue(queuedActorIds, QueueCapacity, actorId);
    }

    method NewPose(actor: Actor, pose: Pose)
      requires pose.numTransforms <= |actor.joints|
      modifies this
      ensures State() == L.NewPose(old(State()), actor, pose)
    {
      if !hasClient {
        return;
      }
      if actor.id !in haveActors {
        queuedActorIds := Enqueue(queuedActorIds, QueueCapacity, actor.id);
        return;
      }
      var key := haveActors[actor.id];
      var frame := PosePipeline.BuildFrame(actor, pose);
      if frame.Some? {
        calls := calls + [PushFrame(key, frame.value)];
      }
    }

    method ArTagDetected(tags: seq<ArTag>)
      modifies this
      ensures State() == L.ArTagsDetected(old(State()), tags)
    {
      if !hasClient {
        return;
      }
      var i := 0;
      while i < |tags|
        invariant 0 <= i <= |tags|
        invariant L.TagsFrom(State(), tags, i) == L.TagsFrom(old(State()), tags, 0)
      {
        var id := tags[i].id;
        if id !in haveActors {
          queuedARTags := Enqueue(queuedARTags, QueueCapacity, id);
        } else {
          calls := calls + [PushFrame(haveActors[id], Rigid(Computed(i)))];
        }
        i := i + 1;
      }
    }

    method AddSubject(actor: Actor)
      modifies this
      ensures State() == L.AddSubject(old(State()), actor)
    {
      if actor.id in haveActors {
        return;
      }
      if !hasClient {
        return;
      }
      var key := SubjectKey(sourceGuid, prefix + actor.name);
      var data;
      if |actor.joints| > 1 {
        data := Skeleton.SetupSkeletonDefinition(actor);
      } else {
        data := Skeleton.PropStaticData();
      }
      calls := calls + [PushStatic(key, data)];
      haveActors := haveActors[actor.id := key];
    }

    method AddSubjects(actors: seq<Actor>)
      modifies this
      ensures State() == L.AddSubjects(old(State()), actors)
    {
      var i := 0;
      while i < |actors|
        invariant 0 <= i <= |actors|
        invariant L.AddSubjects(State(), actors[i..]) == L.AddSubjects(old(State()), actors)
      {
        assert actors[i..][1..] == actors[i + 1..];
        AddSubject(actors[i]);
        i := i + 1;
      }
    }

    method ReceiveClient(guid: int, actors: seq<Actor>)
      modifies this
      ensures State() == L.ReceiveClient(old(State()), guid, actors)
    {
      sourceGuid := guid;
      hasClient := true;
      AddSubjects(actors);
    }

    /** The poll step, draining the three queues in turn. */
    method Update(session: map<int, Actor>)
      modifies this
      ensures State() == L.Update(old(State()), session)
    {
      if !hasClient {
        return;
      }
      DrainRemovals();
      var requeue := DrainAdds(session);
      Requeue(requeue);
      DrainTags();
    }

    method DrainRemovals()
      modifies this
      ensures State() == L.DrainRemovals(old(State()))
    {
      while queuedActorIdsToRemove != []
        invariant L.DrainRemovals(State()) == L.DrainRemovals(old(State()))
        decreases |queuedActorIdsToRemove|
      {
        var id := queuedActorIdsToRemove[0];
        queuedActorIdsToRemove := queuedActorIdsToRemove[1..];
        if id in haveActors {
          calls := calls + [RemoveSubject(haveActors[id])];
          haveActors := haveActors - {id};
        }
      }
    }

    method DrainAdds(session: map<int, Actor>) returns (requeue: seq<int>)
      modifies this
      ensures (State(), requeue) == L.DrainAdds(old(State()), session, [])
    {
      requeue := [];
      while queuedActorIds != []
        invariant L.DrainAdds(State(), session, requeue) == L.DrainAdds(old(State()), session, [])
        decreases |queuedActorIds|
      {
        var id := queuedActorIds[0];
        queuedActorIds := queuedActorIds[1..];
        if id in session {
          AddSubject(session[id]);
        } else {
          requeue := requeue + [id];
        }
      }
    }

    method Requeue(ids: seq<int>)
      modifies this
      ensures State() == old(State()).(queuedActorIds := EnqueueAll(old(queuedActorIds), QueueCapacity, ids))
    {
      var j := 0;
      while j < |ids|
        invariant 0 <= j <= |ids|
        invariant State() == old(State()).(queuedActorIds := queuedActorIds)
        invariant EnqueueAll(queuedActorIds, QueueCapacity, ids[j..]) == EnqueueAll(old(queuedActorIds), QueueCapacity, ids)
      {
        assert ids[j..][1..] == ids[j + 1..];
        queuedActorIds := Enqueue(queuedActorIds, QueueCapacity, ids[j]);
        j := j + 1;
      }
    }

    method DrainTags()
      modifies this
      ensures State() == L.DrainTags(old(State()))
    {
      while queuedARTags != []
        invariant L.DrainTags(State()) == L.DrainTags(old(State()))
        decreases |queuedARTags|
      {
        var id := queuedARTags[0];
        queuedARTags := queuedARTags[1..];
        var key := SubjectKey(sourceGuid, prefix + "ARTag " + IntToString(id));
        calls := calls + [PushStatic(key, Skeleton.PropStaticData())];
        haveActors := haveActors[id := key];
      }
    }

    method GetSourceStatus(status: ConnectionStatus, actorIds: seq<int>) returns (text: string)
      modifies this
      ensures (State(), text) == L.GetSourceStatus(old(State()), status, actorIds)
    {
      match status
      case Disconnected =>
        connected := false;
        text := "connecting";
      case Connecting =>
        connected := false;
        text := "connecting...";
      case Connected =>
        if !connected {
          var i := 0;
          while i < |actorIds|
            invariant 0 <= i <= |actorIds|
            invariant State() == old(State()).(queuedActorIds := queuedActorIds)
            invariant EnqueueAll(queuedActorIds, QueueCapacity, actorIds[i..])
                   == EnqueueAll(old(queuedActorIds), QueueCapacity, actorIds)
          {
            assert actorIds[i..][1..] == actorIds[i + 1..];
            queuedActorIds := Enqueue(queuedActorIds, QueueCapacity, actorIds[i]);
            i := i + 1;
          }
          connected := true;
        }
        text := "connected";
      case UnknownStatus(_) =>
        text := "unknown";
    }

    method IsSourceStillValid(status: ConnectionStatus) returns (valid: bool)
      modifies this
      ensures (State(), valid) == L.IsSourceStillValid(old(State()), status)
    {
      valid := enabled && status == Connected;
      if !valid {
        statusText := "failed to connect";
      }
    }

    method Disable()
      modifies this
      ensures State() == L.Disable(old(State()))
    {
      statusText := "disabled";
      streams := {};
      haveActors := map[];
      hasClient := false;
      enabled := false;
    }

    method RequestSourceShutdown() returns (ok: bool)
      modifies this
      ensures (State(), ok) == L.RequestSourceShutdown(old(State()))
    {
      streams := {};
      hasClient := false;
      ok := true;
    }

    /** Destruction: the source leaves the count and frees its index. */
    method Destroy(dir: SourceDirectory.Directory)
      requires ipAddress in dir.ipAddressCounts
      modifies dir
      ensures dir.sourceCount == old(dir.sourceCount) - 1
      ensures dir.ipAddressCounts == old(dir.ipAddressCounts)[ipAddress := old(dir.ipAddressCounts[ipAddress]) - {sourceIndex}]
    {
      dir.Release(ipAddress, sourceIndex);
    }
  }
}
