/** What `ExtensionImport::import` for `Vrm`
    (`crates/gltf_kun_vrm/src/vrm0/import.rs`) reads, and which error, if
    any, it stops with. The importer checks every index of the VRM 0.x JSON
    against a list that exists at that point (glTF materials, textures,
    nodes, the human bones and collider groups it created itself) in a fixed
    order and returns the first failure. */
module VrmImportSpec {
  import opened Wrappers
  import opened Bones
  import opened VrmGraph

  /** `textureProperties` of a material property: one optional texture
      index per slot. */
  datatype TextureSlotsJson = TextureSlotsJson(
    baseColor: Option<nat>, shade: Option<nat>, additive: Option<nat>,
    normal: Option<nat>, emissive: Option<nat>)

  datatype MaterialPropertyJson = MaterialPropertyJson(
    name: Option<string>, shader: Option<Shader>, renderQueue: Option<int>,
    float: Option<FloatProperties>, vector: Option<VectorProperties>,
    texture: Option<TextureSlotsJson>)

  datatype MetaJson = MetaJson(texture: Option<nat>)

  datatype BoneJson = BoneJson(bone: Option<BoneName>, node: Option<nat>, useDefaultValues: Option<bool>)

  datatype HumanoidJson = HumanoidJson(humanBones: Option<seq<BoneJson>>)

  datatype FirstPersonJson = FirstPersonJson(firstPersonBone: Option<nat>)

  datatype BindJson = BindJson(mesh: Option<nat>, index: Option<nat>, weight: Option<real>)

  datatype BlendShapeGroupJson = BlendShapeGroupJson(
    name: Option<string>, presetName: Option<string>, isBinary: Option<bool>,
    binds: Option<seq<BindJson>>)

  datatype BlendShapeMasterJson = BlendShapeMasterJson(groups: Option<seq<BlendShapeGroupJson>>)

  /** A collider group; only the number of its colliders is kept. */
  datatype ColliderGroupJson = ColliderGroupJson(node: Option<nat>, colliders: Option<nat>)

  datatype BoneGroupJson = BoneGroupJson(
    comment: Option<string>, stiffiness: Option<real>, gravityPower: Option<real>,
    gravityDir: Option<Vec3>, dragForce: Option<real>, center: Option<real>,
    hitRadius: Option<real>, bones: Option<seq<nat>>, colliderGroups: Option<seq<nat>>)

  datatype SecondaryAnimationJson = SecondaryAnimationJson(
    boneGroups: Option<seq<BoneGroupJson>>, colliderGroups: Option<seq<ColliderGroupJson>>)

  /** `serde_vrm::vrm0::Vrm`, as far as the importer reads it. */
  datatype VrmJson = VrmJson(
    exporterVersion: Option<string>,
    materialProperties: Option<seq<MaterialPropertyJson>>,
    meta: Option<MetaJson>,
    humanoid: Option<HumanoidJson>,
    firstPerson: Option<FirstPersonJson>,
    blendShapeMaster: Option<BlendShapeMasterJson>,
    secondaryAnimation: Option<SecondaryAnimationJson>)

  /** The value under the `"VRM"` key: either it deserialises or it does not. */
  datatype RawVrm = Malformed | Parsed(vrm: VrmJson)

  /** The glTF document the extension is imported into: its root node and
      its materials, textures, nodes and meshes (each mesh the list of its
      primitives), as node ids of the graph. */
  datatype Document = Document(
    root: NodeId, materials: seq<NodeId>, textures: seq<NodeId>,
    nodes: seq<NodeId>, meshes: seq<seq<NodeId>>)

  /** `VrmImportError`, plus the deserialisation failure passed on by `?`. */
  datatype ImportError =
    | ParseError
    | MaterialNotFound(material: nat)
    | NodeNotFound(node: nat)
    | TextureNotFound(texture: nat)
    | BoneNotFound(bone: nat)
    | BoneGroupNotFound(boneGroup: nat)
    | ColliderGroupNotFound(colliderGroup: nat)

  /** The `"VRM"` entry of the top-level extensions, if both exist. */
  function VrmEntry(extensions: Option<map<string, RawVrm>>): Option<RawVrm> {
    if extensions.Some? && EXTENSION_NAME in extensions.value then Some(extensions.value[EXTENSION_NAME])
    else None
  }

  function MaterialProperties(v: VrmJson): seq<MaterialPropertyJson> {
    v.materialProperties.GetOr([])
  }

  function HumanBones(v: VrmJson): seq<BoneJson> {
    if v.humanoid.Some? then v.humanoid.value.humanBones.GetOr([]) else []
  }

  function ColliderGroups(v: VrmJson): seq<ColliderGroupJson> {
    if v.secondaryAnimation.Some? then v.secondaryAnimation.value.colliderGroups.GetOr([]) else []
  }

  function BoneGroups(v: VrmJson): seq<BoneGroupJson> {
    if v.secondaryAnimation.Some? then v.secondaryAnimation.value.boneGroups.GetOr([]) else []
  }

  /** Runs check `a`, then check `b` only if `a` passed (the `?` operator). */
  function OrElse(a: Option<ImportError>, b: Option<ImportError>): Option<ImportError> {
    if a.Some? then a else b
  }

  /** The first index in `xs` that is not below `count`. */
  function FirstAtLeast(xs: seq<nat>, count: nat): (r: Option<nat>)
    ensures r.Some? ==> r.value in xs && r.value >= count
  {
    if |xs| == 0 then None
    else if xs[0] >= count then Some(xs[0])
    else FirstAtLeast(xs[1..], count)
  }

  /** A present texture index must name a glTF texture. */
  function SlotError(idx: Option<nat>, textureCount: nat): Option<ImportError> {
    if idx.Some? && idx.value >= textureCount then Some(TextureNotFound(idx.value)) else None
  }

  /** Slots are checked base colour, shade, additive, normal, emissive. */
  function TextureSlotsError(t: TextureSlotsJson, textureCount: nat): Option<ImportError> {
    OrElse(SlotError(t.baseColor, textureCount),
    OrElse(SlotError(t.shade, textureCount),
    OrElse(SlotError(t.additive, textureCount),
    OrElse(SlotError(t.normal, textureCount),
           SlotError(t.emissive, textureCount)))))
  }

  /** The i-th material property needs an i-th glTF material, then its
      texture slots. */
  function MaterialError(i: nat, p: MaterialPropertyJson, doc: Document): Option<ImportError> {
    if i >= |doc.materials| then Some(MaterialNotFound(i))
    else if p.texture.None? then None
    else TextureSlotsError(p.texture.value, |doc.textures|)
  }

  function MaterialsError(ps: seq<MaterialPropertyJson>, doc: Document, i: nat): Option<ImportError>
    decreases |ps| - i
  {
    if i >= |ps| then None
    else if MaterialError(i, ps[i], doc).Some? then MaterialError(i, ps[i], doc)
    else MaterialsError(ps, doc, i + 1)
  }

  function ThumbnailError(meta: Option<MetaJson>, textureCount: nat): Option<ImportError> {
    if meta.Some? then SlotError(meta.value.texture, textureCount) else None
  }

  function NodeError(node: Option<nat>, nodeCount: nat): Option<ImportError> {
    if node.Some? && node.value >= nodeCount then Some(NodeNotFound(node.value)) else None
  }

  function BonesError(bones: seq<BoneJson>, nodeCount: nat, i: nat): Option<ImportError>
    decreases |bones| - i
  {
    if i >= |bones| then None
    else if NodeError(bones[i].node, nodeCount).Some? then NodeError(bones[i].node, nodeCount)
    else BonesError(bones, nodeCount, i + 1)
  }

  /** The first-person bone indexes the human bones of this import. */
  function FirstPersonError(fp: Option<FirstPersonJson>, boneCount: nat): Option<ImportError> {
    if fp.Some? && fp.value.firstPersonBone.Some? && fp.value.firstPersonBone.value >= boneCount
    then Some(BoneNotFound(fp.value.firstPersonBone.value))
    else None
  }

  function ColliderGroupsError(cgs: seq<ColliderGroupJson>, nodeCount: nat, i: nat): Option<ImportError>
    decreases |cgs| - i
  {
    if i >= |cgs| then None
    else if NodeError(cgs[i].node, nodeCount).Some? then NodeError(cgs[i].node, nodeCount)
    else ColliderGroupsError(cgs, nodeCount, i + 1)
  }

  /** A bone group's bones index glTF nodes; its collider groups index the
      collider groups created by this import. */
  function BoneGroupError(bg: BoneGroupJson, nodeCount: nat, colliderGroupCount: nat): Option<ImportError> {
    var b := FirstAtLeast(bg.bones.GetOr([]), nodeCount);
    var c := FirstAtLeast(bg.colliderGroups.GetOr([]), colliderGroupCount);
    if b.Some? then Some(BoneNotFound(b.value))
    else if c.Some? then Some(ColliderGroupNotFound(c.value))
    else None
  }

  function BoneGroupsError(bgs: seq<BoneGroupJson>, nodeCount: nat, colliderGroupCount: nat, i: nat): Option<ImportError>
    decreases |bgs| - i
  {
    if i >= |bgs| then None
    else if BoneGroupError(bgs[i], nodeCount, colliderGroupCount).Some? then BoneGroupError(bgs[i], nodeCount, colliderGroupCount)
    else BoneGroupsError(bgs, nodeCount, colliderGroupCount, i + 1)
  }

  /** Collider groups are all created and checked before any bone group. */
  function SecondaryError(v: VrmJson, nodeCount: nat): Option<ImportError> {
    OrElse(ColliderGroupsError(ColliderGroups(v), nodeCount, 0),
           BoneGroupsError(BoneGroups(v), nodeCount, |ColliderGroups(v)|, 0))
  }

  /** The stages in the order the importer runs them. */
  function VrmError(v: VrmJson, doc: Document): Option<ImportError> {
    OrElse(MaterialsError(MaterialProperties(v), doc, 0),
    OrElse(ThumbnailError(v.meta, |doc.textures|),
    OrElse(BonesError(HumanBones(v), |doc.nodes|, 0),
    OrElse(FirstPersonError(v.firstPerson, |HumanBones(v)|),
           SecondaryError(v, |doc.nodes|)))))
  }

  /** The result of `import`. */
  function ExpectedResult(extensions: Option<map<string, RawVrm>>, doc: Document): Result<(), ImportError> {
    match VrmEntry(extensions)
    case None => Ok(())
    case Some(Malformed) => Err(ParseError)
    case Some(Parsed(v)) => if VrmError(v, doc).Some? then Err(VrmError(v, doc).value) else Ok(())
  }

  // ---------------------------------------------------------------------
  // The independent statement: every index resolves.

  predicate SlotResolves(idx: Option<nat>, textureCount: nat) {
    idx.Some? ==> idx.value < textureCount
  }

  predicate SlotsResolve(t: TextureSlotsJson, textureCount: nat) {
    SlotResolves(t.baseColor, textureCount) && SlotResolves(t.shade, textureCount) &&
    SlotResolves(t.additive, textureCount) && SlotResolves(t.normal, textureCount) &&
    SlotResolves(t.emissive, textureCount)
  }

  predicate MaterialResolves(i: nat, p: MaterialPropertyJson, doc: Document) {
    i < |doc.materials| && (p.texture.Some? ==> SlotsResolve(p.texture.value, |doc.textures|))
  }

  predicate NodeResolves(node: Option<nat>, nodeCount: nat) {
    node.Some? ==> node.value < nodeCount
  }

  predicate AllBelow(xs: seq<nat>, count: nat) {
    forall k :: 0 <= k < |xs| ==> xs[k] < count
  }

  predicate BoneGroupResolves(bg: BoneGroupJson, nodeCount: nat, colliderGroupCount: nat) {
    AllBelow(bg.bones.GetOr([]), nodeCount) && AllBelow(bg.colliderGroups.GetOr([]), colliderGroupCount)
  }

  /** Every material property has its glTF material and textures, the
      thumbnail and every node index exist, the first-person bone is one of
      the human bones, and every bone group refers to existing nodes and
      collider groups. */
  predicate AllResolved(v: VrmJson, doc: Document) {
    (forall i :: 0 <= i < |MaterialProperties(v)| ==> MaterialResolves(i, MaterialProperties(v)[i], doc)) &&
    (v.meta.Some? ==> SlotResolves(v.meta.value.texture, |doc.textures|)) &&
    (forall k :: 0 <= k < |HumanBones(v)| ==> NodeResolves(HumanBones(v)[k].node, |doc.nodes|)) &&
    (v.firstPerson.Some? ==> NodeResolves(v.firstPerson.value.firstPersonBone, |HumanBones(v)|)) &&
    (forall k :: 0 <= k < |ColliderGroups(v)| ==> NodeResolves(ColliderGroups(v)[k].node, |doc.nodes|)) &&
    (forall k :: 0 <= k < |BoneGroups(v)| ==> BoneGroupResolves(BoneGroups(v)[k], |doc.nodes|, |ColliderGroups(v)|))
  }

  lemma {:induction false} FirstAtLeastNone(xs: seq<nat>, count: nat)
    ensures FirstAtLeast(xs, count).None? <==> AllBelow(xs, count)
  {
    if |xs| > 0 {
      FirstAtLeastNone(xs[1..], count);
      if xs[0] < count && AllBelow(xs[1..], count) {
        forall k | 0 <= k < |xs|
          ensures xs[k] < count
        {
          if k > 0 {
            assert xs[k] == xs[1..][k - 1];
          }
        }
      }
    }
  }

  lemma TextureSlotsErrorNone(t: TextureSlotsJson, textureCount: nat)
    ensures TextureSlotsError(t, textureCount).None? <==> SlotsResolve(t, textureCount)
  {
  }

  lemma {:induction false} MaterialsErrorNone(ps: seq<MaterialPropertyJson>, doc: Document, i: nat)
    ensures MaterialsError(ps, doc, i).None? <==> forall k :: i <= k < |ps| ==> MaterialResolves(k, ps[k], doc)
    decreases |ps| - i
  {
    if i < |ps| {
      MaterialsErrorNone(ps, doc, i + 1);
      if ps[i].texture.Some? {
        TextureSlotsErrorNone(ps[i].texture.value, |doc.textures|);
      }
    }
  }

  lemma {:induction false} BonesErrorNone(bones: seq<BoneJson>, nodeCount: nat, i: nat)
    ensures BonesError(bones, nodeCount, i).None? <==> forall k :: i <= k < |bones| ==> NodeResolves(bones[k].node, nodeCount)
    decreases |bones| - i
  {
    if i < |bones| {
      BonesErrorNone(bones, nodeCount, i + 1);
    }
  }

  lemma {:induction false} ColliderGroupsErrorNone(cgs: seq<ColliderGroupJson>, nodeCount: nat, i: nat)
    ensures ColliderGroupsError(cgs, nodeCount, i).None? <==> forall k :: i <= k < |cgs| ==> NodeResolves(cgs[k].node, nodeCount)
    decreases |cgs| - i
  {
    if i < |cgs| {
      ColliderGroupsErrorNone(cgs, nodeCount, i + 1);
    }
  }

  lemma {:induction false} BoneGroupsErrorNone(bgs: seq<BoneGroupJson>, nodeCount: nat, colliderGroupCount: nat, i: nat)
    ensures BoneGroupsError(bgs, nodeCount, colliderGroupCount, i).None? <==>
            forall k :: i <= k < |bgs| ==> BoneGroupResolves(bgs[k], nodeCount, colliderGroupCount)
    decreases |bgs| - i
  {
    if i < |bgs| {
      BoneGroupsErrorNone(bgs, nodeCount, colliderGroupCount, i + 1);
      FirstAtLeastNone(bgs[i].bones.GetOr([]), nodeCount);
      FirstAtLeastNone(bgs[i].colliderGroups.GetOr([]), colliderGroupCount);
    }
  }

  /** The import of a parsed extension succeeds exactly when every index in
      it resolves. */
  lemma ImportSucceedsIffResolved(v: VrmJson, doc: Document)
    ensures VrmError(v, doc).None? <==> AllResolved(v, doc)
  {
    MaterialsErrorNone(MaterialProperties(v), doc, 0);
    BonesErrorNone(HumanBones(v), |doc.nodes|, 0);
    ColliderGroupsErrorNone(ColliderGroups(v), |doc.nodes|, 0);
    BoneGroupsErrorNone(BoneGroups(v), |doc.nodes|, |ColliderGroups(v)|, 0);
  }

  /** A material property past the last glTF material fails at exactly the
      material count: every earlier index resolved its material. */
  lemma {:induction false} MaterialNotFoundAtCount(ps: seq<MaterialPropertyJson>, doc: Document, i: nat, m: nat)
    requires i <= |doc.materials|
    requires MaterialsError(ps, doc, i) == Some(MaterialNotFound(m))
    ensures m == |doc.materials| && m < |ps|
    decreases |ps| - i
  {
    if i < |ps| && MaterialError(i, ps[i], doc).None? {
      MaterialNotFoundAtCount(ps, doc, i + 1, m);
    } else if i < |ps| && i < |doc.materials| {
      assert ps[i].texture.Some?;
      var t := ps[i].texture.value;
      var n := |doc.textures|;
      TextureSlotsErrorIsTexture(t, n);
    }
  }

  lemma TextureSlotsErrorIsTexture(t: TextureSlotsJson, textureCount: nat)
    ensures TextureSlotsError(t, textureCount).Some? ==> TextureSlotsError(t, textureCount).value.TextureNotFound?
  {
  }

  /** `BoneGroupNotFound` is declared but no check produces it. */
  lemma NeverBoneGroupNotFound(extensions: Option<map<string, RawVrm>>, doc: Document)
    ensures !(ExpectedResult(extensions, doc).Err? && ExpectedResult(extensions, doc).error.BoneGroupNotFound?)
  {
    if VrmEntry(extensions).Some? && VrmEntry(extensions).value.Parsed? {
      var v := VrmEntry(extensions).value.vrm;
      NoBoneGroupNotFound(v, doc);
    }
  }

  lemma NoBoneGroupNotFound(v: VrmJson, doc: Document)
    ensures VrmError(v, doc).Some? ==> !VrmError(v, doc).value.BoneGroupNotFound?
  {
    NoBoneGroupInMaterials(MaterialProperties(v), doc, 0);
    NoBoneGroupInBones(HumanBones(v), |doc.nodes|, 0);
    NoBoneGroupInColliderGroups(ColliderGroups(v), |doc.nodes|, 0);
    NoBoneGroupInBoneGroups(BoneGroups(v), |doc.nodes|, |ColliderGroups(v)|, 0);
  }

  lemma {:induction false} NoBoneGroupInMaterials(ps: seq<MaterialPropertyJson>, doc: Document, i: nat)
    ensures MaterialsError(ps, doc, i).Some? ==> !MaterialsError(ps, doc, i).value.BoneGroupNotFound?
    decreases |ps| - i
  {
    if i < |ps| {
      NoBoneGroupInMaterials(ps, doc, i + 1);
      if ps[i].texture.Some? {
        TextureSlotsErrorIsTexture(ps[i].texture.value, |doc.textures|);
      }
    }
  }

  lemma {:induction false} NoBoneGroupInBones(bones: seq<BoneJson>, nodeCount: nat, i: nat)
    ensures BonesError(bones, nodeCount, i).Some? ==> BonesError(bones, nodeCount, i).value.NodeNotFound?
    decreases |bones| - i
  {
    if i < |bones| {
      NoBoneGroupInBones(bones, nodeCount, i + 1);
    }
  }

  lemma {:induction false} NoBoneGroupInColliderGroups(cgs: seq<ColliderGroupJson>, nodeCount: nat, i: nat)
    ensures ColliderGroupsError(cgs, nodeCount, i).Some? ==> ColliderGroupsError(cgs, nodeCount, i).value.NodeNotFound?
    decreases |cgs| - i
  {
    if i < |cgs| {
      NoBoneGroupInColliderGroups(cgs, nodeCount, i + 1);
    }
  }

  lemma {:induction false} NoBoneGroupInBoneGroups(bgs: seq<BoneGroupJson>, nodeCount: nat, colliderGroupCount: nat, i: nat)
    ensures BoneGroupsError(bgs, nodeCount, colliderGroupCount, i).Some? ==>
            !BoneGroupsError(bgs, nodeCount, colliderGroupCount, i).value.BoneGroupNotFound?
    decreases |bgs| - i
  {
    if i < |bgs| {
      NoBoneGroupInBoneGroups(bgs, nodeCount, colliderGroupCount, i + 1);
    }
  }
}
