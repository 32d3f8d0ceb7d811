/** The structural part of turning one captured pose into LiveLink frame data:
    which joints are checked, which output shape is produced, how many bones it
    has and in which order, and where the blend-shape weights go. The
    floating-point math that computes each transform is not modelled; an output
    transform only records which input transform it was computed from. */
module PosePipeline {
  import opened LiveLinkTypes
  import opened Text
  import Skeleton

  /** The parent check as the source writes it: joint i's parent is rejected
      only when it is at least the number of pose rotations gathered so far,
      a count that already includes joint i itself. */
  predicate GuardRejectsAsWritten(i: nat, parent: int)
  {
    parent >= 0 && parent >= i + 1
  }

  /** A non-root joint reads its parent's cumulative scale and bind
      orientation; those arrays hold entries for joints 0 .. i-1 only. */
  predicate ParentReadsInRange(i: nat, parent: int)
  {
    i == 0 || 0 <= parent < i
  }

  /** The corrected check the model uses: reject exactly the parents the
      guard rejects or the later reads cannot use. */
  predicate ParentAccepted(i: nat, parent: int)
  {
    !GuardRejectsAsWritten(i, parent) && ParentReadsInRange(i, parent)
  }

  /** The corrected check in closed form: the root may have no parent (or
      itself), every other joint needs an earlier joint as its parent. */
  lemma ParentAcceptedMeans(i: nat, parent: int)
    ensures ParentAccepted(i, parent) <==> if i == 0 then parent <= 0 else 0 <= parent < i
  {
  }

  datatype ScanOutcome = Passed | Discarded | OutOfRange(joint: nat)

  /** The per-joint loop as written, from joint i on: Discarded where the
      guard fires, OutOfRange where a parent array is read out of range. */
  function ScanAsWritten(joints: seq<Joint>, n: nat, i: nat): (r: ScanOutcome)
    requires n <= |joints| && i <= n
    ensures r.OutOfRange? ==>
      && i <= r.joint < n
      && !GuardRejectsAsWritten(r.joint, joints[r.joint].parent)
      && !ParentReadsInRange(r.joint, joints[r.joint].parent)
    ensures r == Passed ==> forall k :: i <= k < n ==> ParentAccepted(k, joints[k].parent)
    decreases n - i
  {
    if i == n then Passed
    else if GuardRejectsAsWritten(i, joints[i].parent) then Discarded
    else if !ParentReadsInRange(i, joints[i].parent) then OutOfRange(i)
    else ScanAsWritten(joints, n, i + 1)
  }

  /** The per-joint loop with the corrected check, from joint i on. */
  function Scan(joints: seq<Joint>, n: nat, i: nat): (r: ScanOutcome)
    requires n <= |joints| && i <= n
    ensures !r.OutOfRange?
    ensures r == Passed ==> forall k :: i <= k < n ==> ParentAccepted(k, joints[k].parent)
    decreases n - i
  {
    if i == n then Passed
    else if !ParentAccepted(i, joints[i].parent) then Discarded
    else Scan(joints, n, i + 1)
  }

  /** The corrected loop discards the pose exactly when some remaining joint
      has a parent the check does not accept. */
  lemma {:induction false} ScanDiscardedIff(joints: seq<Joint>, n: nat, i: nat)
    requires n <= |joints| && i <= n
    ensures Scan(joints, n, i) == Discarded <==>
      exists k :: i <= k < n && !ParentAccepted(k, joints[k].parent)
    decreases n - i
  {
    if i < n {
      ScanDiscardedIff(joints, n, i + 1);
      if !ParentAccepted(i, joints[i].parent) {
        assert i <= i < n && !ParentAccepted(i, joints[i].parent);
      }
    }
  }

  /** The correction changes nothing where the loop as written stays in
      range, and turns every out-of-range read into a discarded pose. */
  lemma {:induction false} ScanCorrectsOnlyOutOfRange(joints: seq<Joint>, n: nat, i: nat)
    requires n <= |joints| && i <= n
    ensures ScanAsWritten(joints, n, i) == Passed <==> Scan(joints, n, i) == Passed
    ensures ScanAsWritten(joints, n, i) == Discarded ==> Scan(joints, n, i) == Discarded
    ensures ScanAsWritten(joints, n, i).OutOfRange? ==> Scan(joints, n, i) == Discarded
    decreases n - i
  {
    if i < n {
      ScanCorrectsOnlyOutOfRange(joints, n, i + 1);
    }
  }

  /** A joint whose parent is itself passes the check as written and then
      reads the parent's cumulative scale out of range. */
  lemma SelfParentReadsOutOfRange()
    ensures var joints := [Joint("Hips", -1), Joint("Spine", 1)];
      && !GuardRejectsAsWritten(1, joints[1].parent)
      && ScanAsWritten(joints, 2, 0) == OutOfRange(1)
      && Scan(joints, 2, 0) == Discarded
  {
  }

  /** A second joint without a parent is not checked at all and reads the
      parent arrays at index -1. */
  lemma OrphanJointReadsOutOfRange()
    ensures var joints := [Joint("Hips", -1), Joint("Spine", -1)];
      && !GuardRejectsAsWritten(1, joints[1].parent)
      && ScanAsWritten(joints, 2, 0) == OutOfRange(1)
      && Scan(joints, 2, 0) == Discarded
  {
  }

  /** The bone transforms of a multi-joint actor: a leading identity "Root"
      for a "Hips" skeleton, then one transform per input transform. */
  function BoneTransforms(joints: seq<Joint>, n: nat): (r: seq<Transform>)
    ensures |r| == n + Skeleton.RootOffset(joints)
    ensures Skeleton.HasHipsRoot(joints) ==> r[0] == Identity
    ensures forall k :: 0 <= k < n ==> r[k + Skeleton.RootOffset(joints)] == Computed(k)
  {
    (if Skeleton.HasHipsRoot(joints) then [Identity] else []) + seq(n, k requires 0 <= k < n => Computed(k))
  }

  /** The frame pushed for a pose that passes the parent check: a bone array
      with the blend-shape weights when the actor has more than one joint,
      otherwise the last computed transform (the identity if there is none).
      The weights are written to the animation frame only, so a rigid frame
      carries none. */
  function OutputFrame(actor: Actor, pose: Pose): (r: Frame)
    requires pose.numTransforms <= |actor.joints|
    ensures r.Animation? <==> |actor.joints| > 1
    ensures r.Animation? ==>
      && |r.transforms| == pose.numTransforms + Skeleton.RootOffset(actor.joints)
      && r.propertyValues == pose.blendShapeActivations
    ensures r.Rigid? ==> (r.transform == Identity <==> pose.numTransforms == 0)
  {
    var n := pose.numTransforms;
    if |actor.joints| > 1 then Animation(BoneTransforms(actor.joints, n), pose.blendShapeActivations)
    else Rigid(if n == 0 then Identity else Computed(n - 1))
  }

  /** Reference definition: the frame the source pushes for a pose, or None
      when the pose is discarded. */
  function PoseFrame(actor: Actor, pose: Pose): (r: Option<Frame>)
    requires pose.numTransforms <= |actor.joints|
    ensures r.Some? ==> forall k :: 0 <= k < pose.numTransforms ==> ParentAccepted(k, actor.joints[k].parent)
    ensures r.Some? ==> (r.value.Animation? <==> |actor.joints| > 1)
  {
    if Scan(actor.joints, pose.numTransforms, 0) == Discarded then None
    else Some(OutputFrame(actor, pose))
  }

  /** The pose loop: walks the joints in order, aborts on the first rejected
      parent, appends one bone per joint (or overwrites the single rigid
      transform), then copies the blend-shape weights. */
  method BuildFrame(actor: Actor, pose: Pose) returns (r: Option<Frame>)
    requires pose.numTransforms <= |actor.joints|
    ensures r == PoseFrame(actor, pose)
  {
    var joints := actor.joints;
    var n := pose.numTransforms;
    var bones: seq<Transform> := [];
    if |joints| > 1 && joints[0].name == "Hips" {
      bones := bones + [Identity];
    }
    var rigid := Identity;
    var i := 0;
    while i < n
      invariant 0 <= i <= n
      invariant Scan(joints, n, 0) == Scan(joints, n, i)
      invariant |joints| > 1 ==> bones == (if Skeleton.HasHipsRoot(joints) then [Identity] else []) + seq(i, k requires 0 <= k < i => Computed(k))
      invariant |joints| <= 1 ==> rigid == if i == 0 then Identity else Computed(i - 1)
    {
      if !ParentAccepted(i, joints[i].parent) {
        return None;
      }
      if |joints| > 1 {
        bones := bones + [Computed(i)];
      } else {
        rigid := Computed(i);
      }
      i := i + 1;
    }
    var weights: seq<real> := [];
    var numBlendShapes := |pose.blendShapeActivations|;
    if numBlendShapes != 0 {
      var j := 0;
      while j < numBlendShapes
        invariant 0 <= j <= numBlendShapes
        invariant weights == pose.blendShapeActivations[..j]
      {
        weights := weights + [pose.blendShapeActivations[j]];
        j := j + 1;
      }
    }
    assert weights == pose.blendShapeActivations;
    if |joints| > 1 {
      r := Some(Animation(bones, weights));
    } else {
      r := Some(Rigid(rigid));
    }
  }

  /** The pushed frame's shape: for more than one joint a bone array of
      numTransforms entries plus a leading identity exactly for a "Hips"
      skeleton, with the weights copied in order; otherwise one transform. */
  lemma PoseFrameShape(actor: Actor, pose: Pose)
    requires pose.numTransforms <= |actor.joints|
    requires PoseFrame(actor, pose).Some?
    ensures var f := PoseFrame(actor, pose).value; var n := pose.numTransforms;
      && (|actor.joints| > 1 <==> f.Animation?)
      && (f.Animation? ==>
            var off := if actor.joints[0].name == "Hips" then 1 else 0;
            && |f.transforms| == n + off
            && (off == 1 ==> f.transforms[0] == Identity)
            && (forall k :: 0 <= k < n ==> f.transforms[k + off] == Computed(k))
            && f.propertyValues == pose.blendShapeActivations)
  {
  }

  /** A pose is pushed exactly when every joint it carries has an accepted
      parent. */
  lemma PoseDiscardedIff(actor: Actor, pose: Pose)
    requires pose.numTransforms <= |actor.joints|
    ensures PoseFrame(actor, pose).None? <==>
      exists k :: 0 <= k < pose.numTransforms && !ParentAccepted(k, actor.joints[k].parent)
  {
    ScanDiscardedIff(actor.joints, pose.numTransforms, 0);
  }

  /** A skeleton with well-ordered parents is never discarded. */
  lemma OrderedSkeletonIsPushed(actor: Actor, pose: Pose)
    requires pose.numTransforms <= |actor.joints|
    requires Skeleton.JointsOrdered(actor.joints)
    requires |actor.joints| >= 1 ==> actor.joints[0].parent == -1
    requires forall k :: 1 <= k < |actor.joints| ==> actor.joints[k].parent >= 0
    ensures PoseFrame(actor, pose).Some?
  {
    PoseDiscardedIff(actor, pose);
  }

  /** Hips(-1), Spine(0) with no blend shapes gives Root, Hips, Spine. */
  lemma HipsSpineScenario()
    ensures PoseFrame(Actor(7, "a", [Joint("Hips", -1), Joint("Spine", 0)], []), Pose(2, []))
      == Some(Animation([Identity, Computed(0), Computed(1)], []))
  {
    var joints := [Joint("Hips", -1), Joint("Spine", 0)];
    assert Scan(joints, 2, 0) == Passed;
    var computed := seq(2, k requires 0 <= k < 2 => Computed(k));
    assert computed[0] == Computed(0) && computed[1] == Computed(1);
    assert computed == [Computed(0), Computed(1)];
    assert Skeleton.HasHipsRoot(joints);
    assert BoneTransforms(joints, 2) == [Identity] + computed;
    var actor := Actor(7, "a", joints, []);
    assert [Identity] + computed == [Identity, Computed(0), Computed(1)];
    assert OutputFrame(actor, Pose(2, [])) == Animation([Identity, Computed(0), Computed(1)], []);
  }
}
