/** `load_humanoid_bones` (`crates/bevy_vrm/src/loader/humanoid_bones.rs`):
    the bone-name -> node-handle map read from a loaded glTF's Vrm
    extension. */
module HumanoidBonesLoader {
  import opened Wrappers
  import opened Bones
  import opened VrmGraph
  import opened HumanoidLookup

  /** The entry each human bone contributes, in `human_bones` order. */
  function HandleEntries(k: GltfKun, bones: seq<NodeId>): (es: seq<Option<(BoneName, Handle)>>)
    reads k.graph
    ensures |es| == |bones|
  {
    if |bones| == 0 then [] else HandleEntries(k, bones[..|bones| - 1]) + [BoneHandle(k, bones[|bones| - 1])]
  }

  /** Each human bone contributes its own entry, in order. */
  lemma {:induction false} HandleEntriesAt(k: GltfKun, bones: seq<NodeId>)
    ensures forall i :: 0 <= i < |bones| ==> HandleEntries(k, bones)[i] == BoneHandle(k, bones[i])
  {
    if |bones| > 0 {
      HandleEntriesAt(k, bones[..|bones| - 1]);
    }
  }

  /** The map after the first n bones of the loop. */
  ghost function HandlesUpTo(k: GltfKun, bones: seq<NodeId>, n: nat): map<BoneName, Handle>
    requires n <= |bones|
    reads k.graph
  {
    if n == 0 then map[] else Put(HandlesUpTo(k, bones, n - 1), BoneHandle(k, bones[n - 1]))
  }

  /** The loop's map is the insertions of the first n bones. */
  lemma {:induction false} HandlesUpToAssign(k: GltfKun, bones: seq<NodeId>, n: nat)
    requires n <= |bones|
    ensures HandlesUpTo(k, bones, n) == Assign(map[], HandleEntries(k, bones[..n]))
  {
    if n > 0 {
      HandlesUpToAssign(k, bones, n - 1);
      HandleEntriesStep(k, bones, n - 1);
      AssignStep(map[], HandlesUpTo(k, bones, n - 1), HandlesUpTo(k, bones, n),
                 HandleEntries(k, bones[..n - 1]), HandleEntries(k, bones[..n]), BoneHandle(k, bones[n - 1]));
    }
  }

  lemma HandleEntriesStep(k: GltfKun, bones: seq<NodeId>, i: nat)
    requires i < |bones|
    ensures HandleEntries(k, bones[..i + 1]) == HandleEntries(k, bones[..i]) + [BoneHandle(k, bones[i])]
  {
    assert bones[..i + 1][..i] == bones[..i];
  }

  /** What `load_humanoid_bones` returns. */
  function LoadedBones(k: GltfKun): Option<map<BoneName, Handle>>
    reads k.graph
  {
    var vrm := VrmNode(k.graph);
    if vrm.None? then None else Some(Assign(map[], HandleEntries(k, HumanBoneNodes(k.graph, vrm.value))))
  }

  method LoadHumanoidBones(k: GltfKun) returns (r: Option<map<BoneName, Handle>>)
    ensures r == LoadedBones(k)
    ensures r.None? <==> VrmNode(k.graph).None?
  {
    var doc := FirstDocument(k.graph.weights);
    if doc.None? {
      return None;
    }
    var ext := k.graph.Property(doc.value, Extension(EXTENSION_NAME));
    if ext.None? {
      return None;
    }
    var bones := HumanBoneNodes(k.graph, ext.value);
    var humanoidBones: map<BoneName, Handle> := map[];
    var i := 0;
    while i < |bones|
      invariant 0 <= i <= |bones|
      invariant humanoidBones == HandlesUpTo(k, bones, i)
    {
      var node := k.graph.Property(bones[i], BONE_NODE);
      var name := BoneNameOf(k.graph, bones[i]);
      if node.Some? && name.Some? && node.value in k.nodeHandles {
        humanoidBones := humanoidBones[name.value := k.nodeHandles[node.value]];
      }
      i := i + 1;
    }
    HandlesUpToAssign(k, bones, |bones|);
    assert bones[..|bones|] == bones;
    r := Some(humanoidBones);
  }

  /** With a document and an extension, a name is in the map iff some
      human bone resolves to it (bones missing a node, a name or a handle
      are skipped), and it maps to the handle of the last such bone's node. */
  lemma LoadedBonesSpec(k: GltfKun, n: BoneName)
    requires VrmNode(k.graph).Some?
    ensures var bones := HumanBoneNodes(k.graph, VrmNode(k.graph).value);
            var m := LoadedBones(k).value;
            (n in m <==> exists i :: 0 <= i < |bones| && Writes(BoneHandle(k, bones[i]), n)) &&
            forall i :: 0 <= i < |bones| && Writes(BoneHandle(k, bones[i]), n) &&
                        (forall j :: i < j < |bones| ==> !Writes(BoneHandle(k, bones[j]), n)) ==>
                          m[n] == k.nodeHandles[k.graph.Property(bones[i], BONE_NODE).value] &&
                          BoneNameOf(k.graph, bones[i]) == Some(n)
  {
    var bones := HumanBoneNodes(k.graph, VrmNode(k.graph).value);
    HandleEntriesAt(k, bones);
    AssignSpec(map[], HandleEntries(k, bones), n);
  }
}
