/** The static data the source registers for an actor: the skeleton
    definition of a multi-joint actor and the prop definition of a rigid one. */
module Skeleton {
  import opened LiveLinkTypes

  /** A name with every `.` replaced by `_` (the engine's bone and property
      names may not contain dots). */
  function ReplaceDots(s: string): (r: string)
    ensures |r| == |s|
    ensures forall k :: 0 <= k < |s| && s[k] != '.' ==> r[k] == s[k]
    ensures forall k :: 0 <= k < |s| && s[k] == '.' ==> r[k] == '_'
    decreases |s|
  {
    if s == [] then []
    else [if s[0] == '.' then '_' else s[0]] + ReplaceDots(s[1..])
  }

  /** No dot survives, and replacing again changes nothing. */
  lemma ReplaceDotsIdempotent(s: string)
    ensures '.' !in ReplaceDots(s)
    ensures ReplaceDots(ReplaceDots(s)) == ReplaceDots(s)
  {
    var r := ReplaceDots(s);
    assert forall k :: 0 <= k < |r| ==> r[k] != '.';
  }

  /** The skeleton gets a synthetic root bone when its first joint is "Hips". */
  predicate HasHipsRoot(joints: seq<Joint>)
  {
    |joints| >= 1 && joints[0].name == "Hips"
  }

  function RootOffset(joints: seq<Joint>): (off: nat)
    ensures off <= 1
  {
    if HasHipsRoot(joints) then 1 else 0
  }

  /** Reference definition of the skeleton static data of a multi-joint actor. */
  function SkeletonDefinition(actor: Actor): (d: StaticData)
    ensures d.SkeletonStatic?
    ensures |d.boneNames| == |d.boneParents| == |actor.joints| + RootOffset(actor.joints)
    ensures |d.propertyNames| == |actor.blendShapes|
    ensures RootOffset(actor.joints) == 1 ==> d.boneNames[0] == "Root" && d.boneParents[0] == -1
  {
    var joints := actor.joints;
    var off := RootOffset(joints);
    SkeletonStatic(
      (if off == 1 then ["Root"] else []) + seq(|joints|, k requires 0 <= k < |joints| => ReplaceDots(joints[k].name)),
      (if off == 1 then [-1] else []) + seq(|joints|, k requires 0 <= k < |joints| => joints[k].parent + off),
      seq(|actor.blendShapes|, k requires 0 <= k < |actor.blendShapes| => ReplaceDots(actor.blendShapes[k])))
  }

  /** No bone or property name of a skeleton definition holds a dot. */
  lemma SkeletonNamesHaveNoDots(actor: Actor)
    ensures var d := SkeletonDefinition(actor);
      && (forall k :: 0 <= k < |d.boneNames| ==> '.' !in d.boneNames[k])
      && (forall k :: 0 <= k < |d.propertyNames| ==> '.' !in d.propertyNames[k])
  {
    var d := SkeletonDefinition(actor);
    var off := RootOffset(actor.joints);
    forall k | 0 <= k < |d.boneNames| ensures '.' !in d.boneNames[k] {
      if k >= off {
        ReplaceDotsIdempotent(actor.joints[k - off].name);
      }
    }
    forall k | 0 <= k < |d.propertyNames| ensures '.' !in d.propertyNames[k] {
      ReplaceDotsIdempotent(actor.blendShapes[k]);
    }
  }

  /** Static data of a rigid subject (a one-joint actor or an AR tag). */
  function PropStaticData(): (d: StaticData)
    ensures d.TransformStatic? && !d.scaleSupported
  {
    TransformStatic(false)
  }

  /** The blend-shape loop: one property name per blend shape, in order,
      with dots replaced. */
  method PropertyNames(blendShapes: seq<string>) returns (names: seq<string>)
    ensures names == seq(|blendShapes|, k requires 0 <= k < |blendShapes| => ReplaceDots(blendShapes[k]))
  {
    names := [];
    var j := 0;
    while j < |blendShapes|
      invariant 0 <= j <= |blendShapes|
      invariant |names| == j
      invariant forall k :: 0 <= k < j ==> names[k] == ReplaceDots(blendShapes[k])
    {
      names := names + [ReplaceDots(blendShapes[j])];
      j := j + 1;
    }
  }

  /** Builds the skeleton definition bone by bone, as the source fills its
      name and parent arrays. */
  method SetupSkeletonDefinition(actor: Actor) returns (def: StaticData)
    requires |actor.joints| >= 1
    ensures def == SkeletonDefinition(actor)
  {
    var joints := actor.joints;
    var names: seq<string> := [];
    var parents: seq<int> := [];
    var jointOffset := 0;
    if joints[0].name == "Hips" {
      names := names + ["Root"];
      parents := parents + [-1];
      jointOffset := 1;
    }
    var i := 0;
    while i < |joints|
      invariant 0 <= i <= |joints|
      invariant jointOffset == RootOffset(joints)
      invariant |names| == |parents| == jointOffset + i
      invariant jointOffset == 1 ==> names[0] == "Root" && parents[0] == -1
      invariant forall k :: 0 <= k < i ==> names[jointOffset + k] == ReplaceDots(joints[k].name)
      invariant forall k :: 0 <= k < i ==> parents[jointOffset + k] == joints[k].parent + jointOffset
    {
      names := names + [ReplaceDots(joints[i].name)];
      parents := parents + [joints[i].parent + jointOffset];
      i := i + 1;
    }
    var blendShapeNames := PropertyNames(actor.blendShapes);
    def := SkeletonStatic(names, parents, blendShapeNames);
  }

  /** Shape of the definition: bone k + off is joint k with its dots replaced
      and its parent shifted by off; a "Hips" skeleton starts with a "Root"
      bone whose parent is -1; blend-shape names keep their order. */
  lemma SkeletonDefinitionShape(actor: Actor)
    ensures var d := SkeletonDefinition(actor); var off := RootOffset(actor.joints);
      && |d.boneNames| == |d.boneParents| == |actor.joints| + off
      && (off == 1 <==> |actor.joints| >= 1 && actor.joints[0].name == "Hips")
      && (off == 1 ==> d.boneNames[0] == "Root" && d.boneParents[0] == -1)
      && (forall k :: 0 <= k < |actor.joints| ==>
            d.boneNames[k + off] == ReplaceDots(actor.joints[k].name)
            && d.boneParents[k + off] == actor.joints[k].parent + off)
      && |d.propertyNames| == |actor.blendShapes|
      && (forall k :: 0 <= k < |actor.blendShapes| ==> d.propertyNames[k] == ReplaceDots(actor.blendShapes[k]))
  {
  }

  /** Every parent refers to an earlier bone (or is -1). */
  predicate TopologicallyOrdered(parents: seq<int>)
  {
    forall k :: 0 <= k < |parents| ==> -1 <= parents[k] < k
  }

  /** Every joint's parent refers to an earlier joint (or is -1). */
  predicate JointsOrdered(joints: seq<Joint>)
  {
    forall k :: 0 <= k < |joints| ==> -1 <= joints[k].parent < k
  }

  /** Prepending the synthetic root and shifting the parents keeps a
      topologically ordered skeleton ordered; with the synthetic root, every
      former root (the "Hips" joint among them) hangs below bone 0. */
  lemma SkeletonDefinitionKeepsOrder(actor: Actor)
    requires JointsOrdered(actor.joints)
    ensures TopologicallyOrdered(SkeletonDefinition(actor).boneParents)
    ensures HasHipsRoot(actor.joints) ==>
      forall b :: 1 <= b < |SkeletonDefinition(actor).boneParents| ==> SkeletonDefinition(actor).boneParents[b] >= 0
  {
    var joints := actor.joints;
    var off := RootOffset(joints);
    var ps := SkeletonDefinition(actor).boneParents;
    var shifted := seq(|joints|, k requires 0 <= k < |joints| => joints[k].parent + off);
    assert ps == (if off == 1 then [-1] else []) + shifted;
    forall b | 0 <= b < |ps| ensures -1 <= ps[b] < b && (off == 1 && b >= 1 ==> ps[b] >= 0) {
      if b >= off {
        assert ps[b] == shifted[b - off] == joints[b - off].parent + off;
      }
    }
  }
}
