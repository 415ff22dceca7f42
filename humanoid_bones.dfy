/** `set_humanoid_bones` (`crates/bevy_vrm/src/humanoid_bones.rs`): a
    one-shot system that binds each humanoid bone name to the scene entity
    named like the bone's glTF node. */
module HumanoidBonesSystem {
  import opened Wrappers
  import opened Bones
  import opened VrmGraph
  import opened HumanoidLookup

  /** `Handle<Vrm>`. */
  type AssetId = nat
  /** The `SceneInstance` id. */
  type InstanceId = nat

  /** A VRM entity's components: the two this system writes
      (`HumanoidBones` and the `HumanoidBonesInitialized` marker) and the
      two it reads. */
  class VrmEntity {
    const vrm: AssetId
    const instance: InstanceId
    var humanoidBones: map<BoneName, Entity>
    var initialized: bool

    constructor (vrm: AssetId, instance: InstanceId)
      ensures this.vrm == vrm && this.instance == instance
      ensures humanoidBones == map[] && !initialized
    {
      this.vrm := vrm;
      this.instance := instance;
      humanoidBones := map[];
      initialized := false;
    }
  }

  /** The entry each human bone contributes, in `human_bones` order. */
  function EntityEntries(k: GltfKun, names: seq<(Entity, string)>, bones: seq<NodeId>): (es: seq<Option<(BoneName, Entity)>>)
    reads k.graph
    ensures |es| == |bones|
  {
    if |bones| == 0 then []
    else EntityEntries(k, names, bones[..|bones| - 1]) + [BoneEntity(k, names, bones[|bones| - 1])]
  }

  /** Each human bone contributes its own entry, in order. */
  lemma {:induction false} EntityEntriesAt(k: GltfKun, names: seq<(Entity, string)>, bones: seq<NodeId>)
    ensures forall i :: 0 <= i < |bones| ==> EntityEntries(k, names, bones)[i] == BoneEntity(k, names, bones[i])
  {
    if |bones| > 0 {
      EntityEntriesAt(k, names, bones[..|bones| - 1]);
    }
  }

  /** The bone map after the first n bones of the loop. */
  ghost function BonesUpTo(k: GltfKun, names: seq<(Entity, string)>, bones: seq<NodeId>, m0: map<BoneName, Entity>, n: nat)
    : map<BoneName, Entity>
    requires n <= |bones|
    reads k.graph
  {
    if n == 0 then m0 else Put(BonesUpTo(k, names, bones, m0, n - 1), BoneEntity(k, names, bones[n - 1]))
  }

  /** The loop's map is the insertions of the first n bones. */
  lemma {:induction false} BonesUpToAssign(k: GltfKun, names: seq<(Entity, string)>, bones: seq<NodeId>,
                                           m0: map<BoneName, Entity>, n: nat)
    requires n <= |bones|
    ensures BonesUpTo(k, names, bones, m0, n) == Assign(m0, EntityEntries(k, names, bones[..n]))
  {
    if n > 0 {
      BonesUpToAssign(k, names, bones, m0, n - 1);
      EntityEntriesStep(k, names, bones, n - 1);
      AssignStep(m0, BonesUpTo(k, names, bones, m0, n - 1), BonesUpTo(k, names, bones, m0, n),
                 EntityEntries(k, names, bones[..n - 1]), EntityEntries(k, names, bones[..n]), BoneEntity(k, names, bones[n - 1]));
    }
  }

  lemma EntityEntriesStep(k: GltfKun, names: seq<(Entity, string)>, bones: seq<NodeId>, i: nat)
    requires i < |bones|
    ensures EntityEntries(k, names, bones[..i + 1]) == EntityEntries(k, names, bones[..i]) + [BoneEntity(k, names, bones[i])]
  {
    assert bones[..i + 1][..i] == bones[..i];
  }

  /** One entity's state across a run of the system. */
  datatype EntityState = EntityState(initialized: bool, humanoidBones: map<BoneName, Entity>)

  /** What one run does to one entity: nothing once initialised, nothing
      while its scene instance is not ready or its asset is not loaded;
      otherwise it is marked, and, when the asset has a document and a
      Vrm extension, each resolving bone is inserted. */
  function Pass(s: EntityState, ready: bool, asset: Option<GltfKun>, names: seq<(Entity, string)>): (r: EntityState)
    reads if asset.Some? then {asset.value.graph} else {}
  {
    if s.initialized || !ready || asset.None? then s
    else
      var vrm := VrmNode(asset.value.graph);
      EntityState(true,
                  if vrm.None? then s.humanoidBones
                  else Assign(s.humanoidBones, EntityEntries(asset.value, names, HumanBoneNodes(asset.value.graph, vrm.value))))
  }

  function AssetOf(vrms: map<AssetId, GltfKun>, id: AssetId): Option<GltfKun> {
    if id in vrms then Some(vrms[id]) else None
  }

  /** The loop body for one entity of the query. */
  method SetEntityBones(x: VrmEntity, ready: set<InstanceId>, vrms: map<AssetId, GltfKun>, names: seq<(Entity, string)>)
    modifies x
    ensures EntityState(x.initialized, x.humanoidBones) ==
            Pass(EntityState(old(x.initialized), old(x.humanoidBones)), x.instance in ready, AssetOf(vrms, x.vrm), names)
  {
    if x.initialized || x.instance !in ready {
      return;
    }
    if x.vrm !in vrms {
      return;
    }
    var k := vrms[x.vrm];
    x.initialized := true;
    var doc := FirstDocument(k.graph.weights);
    if doc.None? {
      return;
    }
    var ext := k.graph.Property(doc.value, Extension(EXTENSION_NAME));
    if ext.None? {
      return;
    }
    var bones := HumanBoneNodes(k.graph, ext.value);
    var i := 0;
    while i < |bones|
      invariant 0 <= i <= |bones| && x.initialized
      invariant x.humanoidBones == BonesUpTo(k, names, bones, old(x.humanoidBones), i)
    {
      var entry := BoneEntity(k, names, bones[i]);
      if entry.Some? {
        x.humanoidBones := x.humanoidBones[entry.value.0 := entry.value.1];
      }
      i := i + 1;
    }
    BonesUpToAssign(k, names, bones, old(x.humanoidBones), |bones|);
    assert bones[..|bones|] == bones;
  }

  /** `set_humanoid_bones`: every entity of the query, each on its own. */
  method SetHumanoidBones(xs: seq<VrmEntity>, ready: set<InstanceId>, vrms: map<AssetId, GltfKun>, names: seq<(Entity, string)>)
    modifies set x | x in xs
    requires forall i, j :: 0 <= i < j < |xs| ==> xs[i] != xs[j]
    ensures forall i :: 0 <= i < |xs| ==>
              EntityState(xs[i].initialized, xs[i].humanoidBones) ==
              Pass(EntityState(old(xs[i].initialized), old(xs[i].humanoidBones)), xs[i].instance in ready, AssetOf(vrms, xs[i].vrm), names)
  {
    var n := 0;
    while n < |xs|
      invariant 0 <= n <= |xs|
      invariant forall i :: 0 <= i < n ==>
                  EntityState(xs[i].initialized, xs[i].humanoidBones) ==
                  Pass(EntityState(old(xs[i].initialized), old(xs[i].humanoidBones)), xs[i].instance in ready, AssetOf(vrms, xs[i].vrm), names)
      invariant forall i :: n <= i < |xs| ==>
                  xs[i].initialized == old(xs[i].initialized) && xs[i].humanoidBones == old(xs[i].humanoidBones)
    {
      SetEntityBones(xs[n], ready, vrms, names);
      n := n + 1;
    }
  }

  /** Only a ready instance with a loaded asset is marked; once the asset
      is there the mark is set whatever the lookups find, and a marked
      entity is never processed again, so a second run changes nothing. */
  lemma PassMarks(s: EntityState, ready: bool, asset: Option<GltfKun>, names: seq<(Entity, string)>)
    ensures Pass(s, ready, asset, names).initialized <==> s.initialized || (ready && asset.Some?)
    ensures Pass(Pass(s, ready, asset, names), ready, asset, names) == Pass(s, ready, asset, names)
    ensures !s.initialized && !(ready && asset.Some?) ==> Pass(s, ready, asset, names) == s
  {
  }

  /** A processed entity ends with a bone name bound iff it was bound
      before or some human bone resolves to it, and bound to the entity of
      the last such bone; names no bone resolves keep their old binding. */
  lemma PassBindings(s: EntityState, asset: GltfKun, names: seq<(Entity, string)>, n: BoneName)
    requires !s.initialized && VrmNode(asset.graph).Some?
    ensures var bones := HumanBoneNodes(asset.graph, VrmNode(asset.graph).value);
            var m := Pass(s, true, Some(asset), names).humanoidBones;
            (n in m <==> n in s.humanoidBones || exists i :: 0 <= i < |bones| && Writes(BoneEntity(asset, names, bones[i]), n)) &&
            (n in s.humanoidBones && (forall i :: 0 <= i < |bones| ==> !Writes(BoneEntity(asset, names, bones[i]), n)) ==>
               m[n] == s.humanoidBones[n]) &&
            forall i :: 0 <= i < |bones| && Writes(BoneEntity(asset, names, bones[i]), n) &&
                        (forall j :: i < j < |bones| ==> !Writes(BoneEntity(asset, names, bones[j]), n)) ==>
                          m[n] == BoneEntity(asset, names, bones[i]).value.1
  {
    var bones := HumanBoneNodes(asset.graph, VrmNode(asset.graph).value);
    EntityEntriesAt(asset, names, bones);
    AssignSpec(s.humanoidBones, EntityEntries(asset, names, bones), n);
  }

  /** A bone resolves to entity `e` only when `e` carries the name under
      which the bone's glTF node handle is registered, and no earlier
      entity carries that name. */
  lemma BoundEntityIsNamed(k: GltfKun, names: seq<(Entity, string)>, bone: NodeId)
    requires BoneEntity(k, names, bone).Some?
    ensures var e := BoneEntity(k, names, bone).value.1;
            var h := BoneHandle(k, bone).value.1;
            BoneHandle(k, bone).Some? &&
            exists i, j :: 0 <= i < |k.namedNodes| && 0 <= j < |names| &&
                           k.namedNodes[i].1 == h && names[j] == (e, k.namedNodes[i].0) &&
                           forall l :: 0 <= l < j ==> names[l].1 != k.namedNodes[i].0
  {
    var h := BoneHandle(k, bone).value.1;
    var nodeName := FirstWithKey(k.namedNodes, h).value;
    var i :| 0 <= i < |k.namedNodes| && k.namedNodes[i].1 == h && k.namedNodes[i].0 == nodeName;
    var e := FirstWithKey(names, nodeName).value;
    var j :| 0 <= j < |names| && names[j].1 == nodeName && names[j].0 == e &&
             forall l :: 0 <= l < j ==> names[l].1 != nodeName;
    assert names[j] == (e, k.namedNodes[i].0);
  }
}
