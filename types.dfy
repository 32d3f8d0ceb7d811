/** Entities exchanged between the capture SDK, the LiveLink source and the
    engine's LiveLink client. Numeric pose data (rotations, offsets, scales,
    timestamps) is not represented: a transform is only identified by where it
    came from. */
module LiveLinkTypes {

  /** One joint of a captured skeleton: its name and the index of its parent
      (-1 for a root). */
  datatype Joint = Joint(name: string, parent: int)

  /** An actor as the SDK reports it; `numJoints` is `|joints|`. */
  datatype Actor = Actor(id: int, name: string, joints: seq<Joint>, blendShapes: seq<string>)

  /** One captured pose: how many joint transforms it carries and its
      blend-shape activations, in channel order. */
  datatype Pose = Pose(numTransforms: nat, blendShapeActivations: seq<real>)

  /** A detected AR tag (its transform is not represented). */
  datatype ArTag = ArTag(id: int)

  /** The SDK's actor-changed modes the source distinguishes; every other mode
      code is carried as is. */
  datatype ActorMode = Stopped | Deleted | OtherMode(code: int)

  predicate IsGone(mode: ActorMode)
  {
    mode == Stopped || mode == Deleted
  }

  /** The SDK's connection status. */
  datatype ConnectionStatus = Disconnected | Connecting | Connected | UnknownStatus(code: int)

  /** The engine's key for one subject: the source's guid and a display name. */
  datatype SubjectKey = SubjectKey(sourceGuid: int, name: string)

  /** An engine-space transform: the identity, or the one computed (by the
      floating-point pipeline, not modelled) from input transform `index`. */
  datatype Transform = Identity | Computed(index: nat)

  /** Frame data: a bone array with blend-shape property values (animation
      role) or one rigid transform (transform role). */
  datatype Frame =
    | Animation(transforms: seq<Transform>, propertyValues: seq<real>)
    | Rigid(transform: Transform)

  /** Static data: a skeleton definition (animation role) or a prop
      definition (transform role). */
  datatype StaticData =
    | SkeletonStatic(boneNames: seq<string>, boneParents: seq<int>, propertyNames: seq<string>)
    | TransformStatic(scaleSupported: bool)

  /** A call the source makes into the engine's LiveLink client. */
  datatype ClientCall =
    | PushStatic(key: SubjectKey, data: StaticData)
    | PushFrame(key: SubjectKey, frame: Frame)
    | RemoveSubject(key: SubjectKey)

  /** Features the source asks the SDK to stream. */
  datatype StreamFeature = GlobalPoses | BlendShapes | OnlyRootTranslation | Tcp | ArTags | Compressed
}
