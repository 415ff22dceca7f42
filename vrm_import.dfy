/** `ExtensionImport::import` for `Vrm`
    (`crates/gltf_kun_vrm/src/vrm0/import.rs`): turns the top-level `"VRM"`
    glTF extension into nodes and edges of the property graph, stage by
    stage, stopping at the first index that does not resolve. Nothing is
    rolled back on failure: the nodes and edges already written stay. */
module VrmImport {
  import opened Wrappers
  import opened Bones
  import opened VrmGraph
  import opened VrmImportSpec

  /** The graph grew from a state with nodes `w0` and edges `e0`, all of
      whose edges leave one of those nodes: every old node keeps its weight
      and every old edge is still there, in the same place. */
  ghost predicate Extends(g: PropertyGraph, w0: seq<Weight>, e0: seq<Edge>)
    reads g
  {
    g.Valid() &&
    |w0| <= |g.weights| && g.weights[..|w0|] == w0 &&
    |e0| <= |g.edges| && g.edges[..|e0|] == e0 &&
    (forall k :: 0 <= k < |e0| ==> e0[k].source < |w0|)
  }

  /** The document's nodes all exist in the graph. */
  predicate DocIn(doc: Document, n: nat) {
    doc.root < n &&
    (forall k :: 0 <= k < |doc.materials| ==> doc.materials[k] < n) &&
    (forall k :: 0 <= k < |doc.textures| ==> doc.textures[k] < n) &&
    (forall k :: 0 <= k < |doc.nodes| ==> doc.nodes[k] < n) &&
    (forall k, j :: 0 <= k < |doc.meshes| && 0 <= j < |doc.meshes[k]| ==> doc.meshes[k][j] < n)
  }

  /** The texture a present, resolving slot binds. */
  function SlotTarget(idx: Option<nat>, doc: Document): Option<NodeId> {
    if idx.Some? && idx.value < |doc.textures| then Some(doc.textures[idx.value]) else None
  }

  /** The glTF node a present, resolving node index binds. */
  function NodeTarget(node: Option<nat>, doc: Document): Option<NodeId> {
    if node.Some? && node.value < |doc.nodes| then Some(doc.nodes[node.value]) else None
  }

  /** The primitive a blend-shape bind refers to: the bind's mesh and its
      primitive `index` (0 when absent), when both exist. */
  function BindTarget(b: BindJson, doc: Document): Option<NodeId> {
    if b.mesh.Some? && b.mesh.value < |doc.meshes| && b.index.GetOr(0) < |doc.meshes[b.mesh.value]|
    then Some(doc.meshes[b.mesh.value][b.index.GetOr(0)])
    else None
  }

  /** From weights `ws0` and edges `es0` to `ws1` and `es1`: the nodes that
      existed are still there, each keeps its weight except `src`, and each
      keeps its lists except `src`'s `tag` list. */
  ghost predicate Framed(ws0: seq<Weight>, es0: seq<Edge>, ws1: seq<Weight>, es1: seq<Edge>, src: NodeId, tag: Label) {
    |ws0| <= |ws1| &&
    (forall s :: 0 <= s < |ws0| && s != src ==> ws1[s] == ws0[s]) &&
    (forall s: NodeId, l: Label :: s < |ws0| && (s != src || l != tag) ==> Targets(es1, s, l) == Targets(es0, s, l))
  }

  lemma FramedTrans(ws0: seq<Weight>, es0: seq<Edge>, ws1: seq<Weight>, es1: seq<Edge>,
                    ws2: seq<Weight>, es2: seq<Edge>, src: NodeId, tag: Label)
    requires Framed(ws0, es0, ws1, es1, src, tag) && Framed(ws1, es1, ws2, es2, src, tag)
    ensures Framed(ws0, es0, ws2, es2, src, tag)
  {
  }

  /** From weights `ws0` and edges `es0` to `ws1` and `es1`: the nodes that
      existed keep their weights and all their lists. */
  ghost predicate Grown(ws0: seq<Weight>, es0: seq<Edge>, ws1: seq<Weight>, es1: seq<Edge>) {
    |ws0| <= |ws1| && ws1[..|ws0|] == ws0 &&
    forall s: NodeId, l: Label :: s < |ws0| ==> Targets(es1, s, l) == Targets(es0, s, l)
  }

  lemma GrownTrans(ws0: seq<Weight>, es0: seq<Edge>, ws1: seq<Weight>, es1: seq<Edge>, ws2: seq<Weight>, es2: seq<Edge>)
    requires Grown(ws0, es0, ws1, es1) && Grown(ws1, es1, ws2, es2)
    ensures Grown(ws0, es0, ws2, es2)
  {
    assert ws2[..|ws0|] == ws2[..|ws1|][..|ws0|];
  }

  /** Across a grown step an old node keeps its weight and its properties. */
  lemma GrownKept(ws0: seq<Weight>, es0: seq<Edge>, ws1: seq<Weight>, es1: seq<Edge>, n: NodeId, l: Label)
    requires Grown(ws0, es0, ws1, es1) && n < |ws0|
    ensures ws1[n] == ws0[n] && FindProperty(es1, n, l) == FindProperty(es0, n, l)
  {
    assert ws1[..|ws0|][n] == ws1[n];
    FindPropertyIsFirstTarget(es0, n, l);
    FindPropertyIsFirstTarget(es1, n, l);
  }

  lemma GrownFramed(ws0: seq<Weight>, es0: seq<Edge>, ws1: seq<Weight>, es1: seq<Edge>, src: NodeId, tag: Label)
    requires Grown(ws0, es0, ws1, es1)
    ensures Framed(ws0, es0, ws1, es1, src, tag)
  {
    forall s | 0 <= s < |ws0|
      ensures ws1[s] == ws0[s]
    {
      assert ws1[..|ws0|][s] == ws1[s];
    }
  }

  /** The five texture slots of `mp` hold the textures the JSON names. */
  ghost predicate SlotsBuilt(es: seq<Edge>, mp: NodeId, t: TextureSlotsJson, doc: Document) {
    FindProperty(es, mp, MAIN_TEXTURE) == SlotTarget(t.baseColor, doc) &&
    FindProperty(es, mp, SHADE_TEXTURE) == SlotTarget(t.shade, doc) &&
    FindProperty(es, mp, SPHERE_ADD) == SlotTarget(t.additive, doc) &&
    FindProperty(es, mp, BUMP_MAP) == SlotTarget(t.normal, doc) &&
    FindProperty(es, mp, EMISSION_MAP) == SlotTarget(t.emissive, doc)
  }

  /** The weight written for a material property. */
  function MaterialWeightOf(p: MaterialPropertyJson): Weight {
    MaterialPropertyWeight(p.name, p.shader, p.renderQueue, p.float.GetOr(NO_FLOATS), p.vector.GetOr(NO_VECTORS))
  }

  /** The node of the i-th material property once imported: bound to the
      i-th glTF material, its present texture slots set, its weight written. */
  ghost predicate MaterialBuilt(ws: seq<Weight>, es: seq<Edge>, mp: NodeId, i: nat, p: MaterialPropertyJson, doc: Document) {
    mp < |ws| && ws[mp] == MaterialWeightOf(p) && i < |doc.materials| &&
    FindProperty(es, mp, MaterialPropertyMaterial) == Some(doc.materials[i]) &&
    (p.texture.Some? ==> SlotsBuilt(es, mp, p.texture.value, doc))
  }

  /** A human bone's node once imported: bound to the glTF node its index
      names, its weight written. */
  ghost predicate HumanBoneBuilt(ws: seq<Weight>, es: seq<Edge>, bone: NodeId, b: BoneJson, doc: Document) {
    bone < |ws| && ws[bone] == BoneWeight(b.bone, b.useDefaultValues) &&
    FindProperty(es, bone, BONE_NODE) == NodeTarget(b.node, doc)
  }

  /** A collider group's node once imported. */
  ghost predicate ColliderBuilt(ws: seq<Weight>, es: seq<Edge>, id: NodeId, cg: ColliderGroupJson, doc: Document) {
    id < |ws| && ws[id] == ColliderGroupWeight(cg.colliders.GetOr(0)) &&
    FindProperty(es, id, COLLIDER_GROUP_NODE) == NodeTarget(cg.node, doc)
  }

  /** A bone group's node once imported: its bones are the glTF nodes its
      indices name, in order, and its j-th collider group is the imported
      collider group (of `cgs`) its j-th index names. */
  ghost predicate BoneGroupBuilt(ws: seq<Weight>, es: seq<Edge>, node: NodeId, bg: BoneGroupJson,
                                 cgs: seq<ColliderGroupJson>, doc: Document) {
    node < |ws| && ws[node] == BoneGroupWeightOf(bg) &&
    AllBelow(bg.bones.GetOr([]), |doc.nodes|) &&
    Targets(es, node, BONE_GROUP_BONE) == Lookup(bg.bones.GetOr([]), doc.nodes) &&
    AllBelow(bg.colliderGroups.GetOr([]), |cgs|) &&
    |Targets(es, node, BONE_GROUP_COLLIDER_GROUP)| == |bg.colliderGroups.GetOr([])| &&
    forall j :: 0 <= j < |bg.colliderGroups.GetOr([])| ==>
      ColliderBuilt(ws, es, Targets(es, node, BONE_GROUP_COLLIDER_GROUP)[j], cgs[bg.colliderGroups.GetOr([])[j]], doc)
  }

  /** The Vrm node lists one material-property node per JSON entry, in
      order, each built from its entry. */
  ghost predicate MaterialsBuilt(ws: seq<Weight>, es: seq<Edge>, vrm: NodeId, v: VrmJson, doc: Document) {
    var mps := Targets(es, vrm, VrmMaterialProperty);
    |mps| == |MaterialProperties(v)| &&
    forall k :: 0 <= k < |mps| ==> MaterialBuilt(ws, es, mps[k], k, MaterialProperties(v)[k], doc)
  }

  /** The Vrm node lists one bone node per JSON human bone, in order. */
  ghost predicate BonesBuilt(ws: seq<Weight>, es: seq<Edge>, vrm: NodeId, v: VrmJson, doc: Document) {
    var bones := Targets(es, vrm, VrmLabel(HumanBone));
    |bones| == |HumanBones(v)| &&
    forall k :: 0 <= k < |bones| ==> HumanBoneBuilt(ws, es, bones[k], HumanBones(v)[k], doc)
  }

  /** The Vrm node lists one bone-group node per JSON bone group, in order. */
  ghost predicate GroupsBuilt(ws: seq<Weight>, es: seq<Edge>, vrm: NodeId, v: VrmJson, doc: Document) {
    var groups := Targets(es, vrm, VrmBoneGroup);
    |groups| == |BoneGroups(v)| &&
    forall k :: 0 <= k < |groups| ==> BoneGroupBuilt(ws, es, groups[k], BoneGroups(v)[k], ColliderGroups(v), doc)
  }

  /** After a successful import of `v`, the Vrm node `vrm` lists one node
      per material property, per human bone and per bone group, in JSON
      order, each built from its JSON entry, and carries its weight. */
  ghost predicate VrmBuilt(ws: seq<Weight>, es: seq<Edge>, vrm: NodeId, v: VrmJson, doc: Document) {
    vrm < |ws| && ws[vrm] == VrmWeight(v.exporterVersion.GetOr("")) &&
    MaterialsBuilt(ws, es, vrm, v, doc) && BonesBuilt(ws, es, vrm, v, doc) && GroupsBuilt(ws, es, vrm, v, doc)
  }

  /** Across a framed step, a node that is not a Vrm node keeps its weight,
      its lists and its single-valued properties. */
  lemma TargetsKept(ws0: seq<Weight>, es0: seq<Edge>, ws1: seq<Weight>, es1: seq<Edge>, src: NodeId, tag: Label,
                    n: NodeId, l: Label)
    requires Framed(ws0, es0, ws1, es1, src, tag) && src < |ws0| && ws0[src].VrmWeight?
    requires n < |ws0| && !ws0[n].VrmWeight?
    ensures ws1[n] == ws0[n] && Targets(es1, n, l) == Targets(es0, n, l) && FindProperty(es1, n, l) == FindProperty(es0, n, l)
  {
    FindPropertyIsFirstTarget(es0, n, l);
    FindPropertyIsFirstTarget(es1, n, l);
  }

  lemma MaterialKept(ws0: seq<Weight>, es0: seq<Edge>, ws1: seq<Weight>, es1: seq<Edge>, src: NodeId, tag: Label,
                     mp: NodeId, i: nat, p: MaterialPropertyJson, doc: Document)
    requires Framed(ws0, es0, ws1, es1, src, tag) && src < |ws0| && ws0[src].VrmWeight?
    requires MaterialBuilt(ws0, es0, mp, i, p, doc)
    ensures MaterialBuilt(ws1, es1, mp, i, p, doc)
  {
    TargetsKept(ws0, es0, ws1, es1, src, tag, mp, MaterialPropertyMaterial);
    TargetsKept(ws0, es0, ws1, es1, src, tag, mp, MAIN_TEXTURE);
    TargetsKept(ws0, es0, ws1, es1, src, tag, mp, SHADE_TEXTURE);
    TargetsKept(ws0, es0, ws1, es1, src, tag, mp, SPHERE_ADD);
    TargetsKept(ws0, es0, ws1, es1, src, tag, mp, BUMP_MAP);
    TargetsKept(ws0, es0, ws1, es1, src, tag, mp, EMISSION_MAP);
  }

  lemma HumanBoneKept(ws0: seq<Weight>, es0: seq<Edge>, ws1: seq<Weight>, es1: seq<Edge>, src: NodeId, tag: Label,
                      bone: NodeId, b: BoneJson, doc: Document)
    requires Framed(ws0, es0, ws1, es1, src, tag) && src < |ws0| && ws0[src].VrmWeight?
    requires HumanBoneBuilt(ws0, es0, bone, b, doc)
    ensures HumanBoneBuilt(ws1, es1, bone, b, doc)
  {
    TargetsKept(ws0, es0, ws1, es1, src, tag, bone, BONE_NODE);
  }

  lemma ColliderKept(ws0: seq<Weight>, es0: seq<Edge>, ws1: seq<Weight>, es1: seq<Edge>, src: NodeId, tag: Label,
                     id: NodeId, cg: ColliderGroupJson, doc: Document)
    requires Framed(ws0, es0, ws1, es1, src, tag) && src < |ws0| && ws0[src].VrmWeight?
    requires ColliderBuilt(ws0, es0, id, cg, doc)
    ensures ColliderBuilt(ws1, es1, id, cg, doc)
  {
    TargetsKept(ws0, es0, ws1, es1, src, tag, id, COLLIDER_GROUP_NODE);
  }

  lemma BoneGroupKept(ws0: seq<Weight>, es0: seq<Edge>, ws1: seq<Weight>, es1: seq<Edge>, src: NodeId, tag: Label,
                      node: NodeId, bg: BoneGroupJson, cgs: seq<ColliderGroupJson>, doc: Document)
    requires Framed(ws0, es0, ws1, es1, src, tag) && src < |ws0| && ws0[src].VrmWeight?
    requires BoneGroupBuilt(ws0, es0, node, bg, cgs, doc)
    ensures BoneGroupBuilt(ws1, es1, node, bg, cgs, doc)
  {
    TargetsKept(ws0, es0, ws1, es1, src, tag, node, BONE_GROUP_BONE);
    TargetsKept(ws0, es0, ws1, es1, src, tag, node, BONE_GROUP_COLLIDER_GROUP);
    var ids := Targets(es0, node, BONE_GROUP_COLLIDER_GROUP);
    var colls := bg.colliderGroups.GetOr([]);
    forall j | 0 <= j < |colls|
      ensures ColliderBuilt(ws1, es1, ids[j], cgs[colls[j]], doc)
    {
      ColliderKept(ws0, es0, ws1, es1, src, tag, ids[j], cgs[colls[j]], doc);
    }
  }

  /** A step that touches another list of the Vrm node keeps its
      material-property list built. */
  lemma MaterialsAcross(ws0: seq<Weight>, es0: seq<Edge>, ws1: seq<Weight>, es1: seq<Edge>, vrm: NodeId, tag: Label,
                        v: VrmJson, doc: Document)
    requires Framed(ws0, es0, ws1, es1, vrm, tag) && vrm < |ws0| && ws0[vrm].VrmWeight? && tag != VrmMaterialProperty
    requires MaterialsBuilt(ws0, es0, vrm, v, doc)
    ensures MaterialsBuilt(ws1, es1, vrm, v, doc)
  {
    var mps := Targets(es0, vrm, VrmMaterialProperty);
    forall k | 0 <= k < |mps|
      ensures MaterialBuilt(ws1, es1, mps[k], k, MaterialProperties(v)[k], doc)
    {
      MaterialKept(ws0, es0, ws1, es1, vrm, tag, mps[k], k, MaterialProperties(v)[k], doc);
    }
  }

  /** The same for the human-bone list. */
  lemma BonesAcross(ws0: seq<Weight>, es0: seq<Edge>, ws1: seq<Weight>, es1: seq<Edge>, vrm: NodeId, tag: Label,
                    v: VrmJson, doc: Document)
    requires Framed(ws0, es0, ws1, es1, vrm, tag) && vrm < |ws0| && ws0[vrm].VrmWeight? && tag != VrmLabel(HumanBone)
    requires BonesBuilt(ws0, es0, vrm, v, doc)
    ensures BonesBuilt(ws1, es1, vrm, v, doc)
  {
    var bones := Targets(es0, vrm, VrmLabel(HumanBone));
    forall k | 0 <= k < |bones|
      ensures HumanBoneBuilt(ws1, es1, bones[k], HumanBones(v)[k], doc)
    {
      HumanBoneKept(ws0, es0, ws1, es1, vrm, tag, bones[k], HumanBones(v)[k], doc);
    }
  }

  /** The same for the bone-group list. */
  lemma GroupsAcross(ws0: seq<Weight>, es0: seq<Edge>, ws1: seq<Weight>, es1: seq<Edge>, vrm: NodeId, tag: Label,
                     v: VrmJson, doc: Document)
    requires Framed(ws0, es0, ws1, es1, vrm, tag) && vrm < |ws0| && ws0[vrm].VrmWeight? && tag != VrmBoneGroup
    requires GroupsBuilt(ws0, es0, vrm, v, doc)
    ensures GroupsBuilt(ws1, es1, vrm, v, doc)
  {
    var groups := Targets(es0, vrm, VrmBoneGroup);
    forall k | 0 <= k < |groups|
      ensures BoneGroupBuilt(ws1, es1, groups[k], BoneGroups(v)[k], ColliderGroups(v), doc)
    {
      BoneGroupKept(ws0, es0, ws1, es1, vrm, tag, groups[k], BoneGroups(v)[k], ColliderGroups(v), doc);
    }
  }

  /** `ys[xs[0]], ys[xs[1]], ...`. */
  function Lookup(xs: seq<nat>, ys: seq<NodeId>): (r: seq<NodeId>)
    requires AllBelow(xs, |ys|)
    ensures |r| == |xs|
  {
    if |xs| == 0 then [] else Lookup(xs[..|xs| - 1], ys) + [ys[xs[|xs| - 1]]]
  }

  /** Each index picks its own entry, in order. */
  lemma {:induction false} LookupAt(xs: seq<nat>, ys: seq<NodeId>)
    requires AllBelow(xs, |ys|)
    ensures forall k :: 0 <= k < |xs| ==> Lookup(xs, ys)[k] == ys[xs[k]]
  {
    if |xs| > 0 {
      LookupAt(xs[..|xs| - 1], ys);
    }
  }

  /** Clearing a property of `src` keeps a prefix that has no edge from `src`. */
  lemma {:induction false} ClearedPrefix(p: seq<Edge>, q: seq<Edge>, src: NodeId, tag: Label)
    requires forall k :: 0 <= k < |p| ==> p[k].source != src
    ensures Cleared(p + q, src, tag) == p + Cleared(q, src, tag)
    decreases |p|
  {
    if |p| > 0 {
      var pq := p + q;
      assert pq[0] == p[0] && pq[1..] == p[1..] + q;
      assert !Matches(p[0], src, tag);
      ClearedPrefix(p[1..], q, src, tag);
      JoinPrefix(p[0], p[1..], p, Cleared(q, src, tag), Cleared(pq, src, tag), Cleared(pq[1..], src, tag));
    } else {
      assert p + q == q;
    }
  }

  lemma JoinPrefix(x: Edge, rest: seq<Edge>, p: seq<Edge>, cq: seq<Edge>, whole: seq<Edge>, tail: seq<Edge>)
    requires p == [x] + rest && whole == [x] + tail && tail == rest + cq
    ensures whole == p + cq
  {
  }

  /** A new node, as the wrappers' `new(graph)` creates it. */
  method NewNode(g: PropertyGraph, w: Weight, ghost w0: seq<Weight>, ghost e0: seq<Edge>) returns (n: NodeId)
    modifies g
    requires Extends(g, w0, e0)
    ensures Extends(g, w0, e0)
    ensures n == |old(g.weights)| && g.weights == old(g.weights) + [w] && g.edges == old(g.edges)
    ensures forall l: Label :: g.Property(n, l) == None && g.Properties(n, l) == []
    ensures forall s: NodeId, l: Label :: g.Property(s, l) == old(g.Property(s, l))
    ensures forall s: NodeId, l: Label :: Targets(g.edges, s, l) == Targets(old(g.edges), s, l)
  {
    n := g.AddNode(w);
    assert g.weights[..|w0|] == old(g.weights)[..|w0|];
    forall l: Label
      ensures g.Property(n, l) == None && g.Properties(n, l) == []
    {
      assert g.Properties(n, l) == [];
      FindPropertyIsFirstTarget(g.edges, n, l);
    }
  }

  /** `add_property` on a node created by the import. */
  method Link(g: PropertyGraph, src: NodeId, tag: Label, t: NodeId, ghost w0: seq<Weight>, ghost e0: seq<Edge>)
    modifies g
    requires Extends(g, w0, e0) && |w0| <= src < |g.weights| && t < |g.weights|
    ensures Extends(g, w0, e0)
    ensures g.weights == old(g.weights) && g.edges == old(g.edges) + [Edge(src, tag, t)]
    ensures g.Properties(src, tag) == old(g.Properties(src, tag)) + [t]
    ensures forall s, l :: (s != src || l != tag) ==> Targets(g.edges, s, l) == Targets(old(g.edges), s, l)
    ensures forall s, l :: (s != src || l != tag) ==> g.Property(s, l) == old(g.Property(s, l))
  {
    g.AddProperty(src, tag, t);
    assert g.edges[..|e0|] == old(g.edges)[..|e0|];
    forall s, l | s != src || l != tag
      ensures Targets(g.edges, s, l) == Targets(old(g.edges), s, l)
      ensures g.Property(s, l) == old(g.Property(s, l))
    {
      AddedLast(old(g.edges), src, tag, t, s, l);
      FindPropertyIsFirstTarget(g.edges, s, l);
      FindPropertyIsFirstTarget(old(g.edges), s, l);
    }
  }

  /** `set_property` on a node created by the import. */
  method SetLink(g: PropertyGraph, src: NodeId, tag: Label, t: Option<NodeId>, ghost w0: seq<Weight>, ghost e0: seq<Edge>)
    modifies g
    requires Extends(g, w0, e0) && |w0| <= src < |g.weights| && (t.Some? ==> t.value < |g.weights|)
    ensures Extends(g, w0, e0)
    ensures g.weights == old(g.weights) && g.Property(src, tag) == t
    ensures forall s, l :: (s != src || l != tag) ==> Targets(g.edges, s, l) == Targets(old(g.edges), s, l)
    ensures forall s, l :: (s != src || l != tag) ==> g.Property(s, l) == old(g.Property(s, l))
  {
    var p, q := g.edges[..|e0|], g.edges[|e0|..];
    assert g.edges == p + q;
    ClearedPrefix(p, q, src, tag);
    g.SetProperty(src, tag, t);
    var extra := if t.Some? then [Edge(src, tag, t.value)] else [];
    assert g.edges == p + (Cleared(q, src, tag) + extra);
    assert g.edges[..|e0|] == p;
    forall s, l | s != src || l != tag
      ensures Targets(g.edges, s, l) == Targets(old(g.edges), s, l)
      ensures g.Property(s, l) == old(g.Property(s, l))
    {
      SetThenFind(old(g.edges), src, tag, t, s, l);
      TargetsAppend(Cleared(old(g.edges), src, tag), extra, s, l);
      ClearedTargets(old(g.edges), src, tag, s, l);
    }
  }

  /** `write(weight)` on a node created by the import. */
  method WriteNode(g: PropertyGraph, n: NodeId, w: Weight, ghost w0: seq<Weight>, ghost e0: seq<Edge>)
    modifies g
    requires Extends(g, w0, e0) && |w0| <= n < |g.weights|
    ensures Extends(g, w0, e0)
    ensures g.weights == old(g.weights)[n := w] && g.edges == old(g.edges)
    ensures forall s: NodeId, l: Label :: g.Property(s, l) == old(g.Property(s, l))
    ensures forall s: NodeId, l: Label :: Targets(g.edges, s, l) == Targets(old(g.edges), s, l)
  {
    g.Write(n, w);
    assert g.weights[..|w0|] == old(g.weights)[..|w0|];
  }

  /** One texture slot of a material property: a present index must name
      a glTF texture, which then becomes that slot's texture. */
  method ImportTextureSlot(g: PropertyGraph, mp: NodeId, tag: Label, idx: Option<nat>, doc: Document,
                           ghost w0: seq<Weight>, ghost e0: seq<Edge>) returns (r: Option<ImportError>)
    modifies g
    requires Extends(g, w0, e0) && |w0| <= mp < |g.weights| && DocIn(doc, |w0|)
    ensures Extends(g, w0, e0) && g.weights == old(g.weights)
    ensures r == SlotError(idx, |doc.textures|)
    ensures r.None? && idx.Some? ==> g.Property(mp, tag) == SlotTarget(idx, doc)
    ensures idx.None? ==> g.Property(mp, tag) == old(g.Property(mp, tag))
    ensures forall s, l :: (s != mp || l != tag) ==> g.Property(s, l) == old(g.Property(s, l))
    ensures forall s, l :: (s != mp || l != tag) ==> Targets(g.edges, s, l) == Targets(old(g.edges), s, l)
  {
    r := None;
    if idx.Some? {
      if idx.value < |doc.textures| {
        SetLink(g, mp, tag, Some(doc.textures[idx.value]), w0, e0);
      } else {
        r := Some(TextureNotFound(idx.value));
      }
    }
  }

  /** The five texture-slot labels differ from each other and from the
      material label. */
  lemma TextureLabelsDistinct()
    ensures MAIN_TEXTURE != SHADE_TEXTURE && MAIN_TEXTURE != SPHERE_ADD && MAIN_TEXTURE != BUMP_MAP
    ensures MAIN_TEXTURE != EMISSION_MAP && SHADE_TEXTURE != SPHERE_ADD && SHADE_TEXTURE != BUMP_MAP
    ensures SHADE_TEXTURE != EMISSION_MAP && SPHERE_ADD != BUMP_MAP && SPHERE_ADD != EMISSION_MAP
    ensures BUMP_MAP != EMISSION_MAP
  {
    assert MAIN_TEXTURE.text[22] == 'M' && EMISSION_MAP.text[22] == 'E';
    assert SHADE_TEXTURE.text[23] == 'h' && SPHERE_ADD.text[23] == 'p';
    assert |MAIN_TEXTURE.text| == 34 && |SHADE_TEXTURE.text| == 35 && |BUMP_MAP.text| == 30;
    assert |SPHERE_ADD.text| == 32 && |EMISSION_MAP.text| == 34;
  }

  /** `textureProperties`: the five slots in order, stopping at the first
      index that names no texture. */
  method ImportTextureSlots(g: PropertyGraph, mp: NodeId, t: TextureSlotsJson, doc: Document,
                            ghost w0: seq<Weight>, ghost e0: seq<Edge>) returns (r: Option<ImportError>)
    modifies g
    requires Extends(g, w0, e0) && |w0| <= mp < |g.weights| && DocIn(doc, |w0|)
    requires g.Property(mp, MAIN_TEXTURE) == None && g.Property(mp, SHADE_TEXTURE) == None
    requires g.Property(mp, SPHERE_ADD) == None && g.Property(mp, BUMP_MAP) == None
    requires g.Property(mp, EMISSION_MAP) == None
    ensures Extends(g, w0, e0) && g.weights == old(g.weights)
    ensures r == TextureSlotsError(t, |doc.textures|)
    ensures g.Property(mp, MaterialPropertyMaterial) == old(g.Property(mp, MaterialPropertyMaterial))
    ensures forall s: NodeId, l: Label :: s != mp ==> Targets(g.edges, s, l) == Targets(old(g.edges), s, l)
    ensures r.None? ==>
              g.Property(mp, MAIN_TEXTURE) == SlotTarget(t.baseColor, doc) &&
              g.Property(mp, SHADE_TEXTURE) == SlotTarget(t.shade, doc) &&
              g.Property(mp, SPHERE_ADD) == SlotTarget(t.additive, doc) &&
              g.Property(mp, BUMP_MAP) == SlotTarget(t.normal, doc) &&
              g.Property(mp, EMISSION_MAP) == SlotTarget(t.emissive, doc)
  {
    TextureLabelsDistinct();
    ghost var before := g.Property(mp, MaterialPropertyMaterial);
    r := ImportTextureSlot(g, mp, MAIN_TEXTURE, t.baseColor, doc, w0, e0);
    if r.Some? { return; }
    ghost var main := g.Property(mp, MAIN_TEXTURE);
    assert main == SlotTarget(t.baseColor, doc);
    r := ImportTextureSlot(g, mp, SHADE_TEXTURE, t.shade, doc, w0, e0);
    if r.Some? { return; }
    ghost var shade := g.Property(mp, SHADE_TEXTURE);
    assert shade == SlotTarget(t.shade, doc);
    assert g.Property(mp, MAIN_TEXTURE) == main;
    r := ImportTextureSlot(g, mp, SPHERE_ADD, t.additive, doc, w0, e0);
    if r.Some? { return; }
    ghost var add := g.Property(mp, SPHERE_ADD);
    assert add == SlotTarget(t.additive, doc);
    assert g.Property(mp, MAIN_TEXTURE) == main && g.Property(mp, SHADE_TEXTURE) == shade;
    r := ImportTextureSlot(g, mp, BUMP_MAP, t.normal, doc, w0, e0);
    if r.Some? { return; }
    ghost var bump := g.Property(mp, BUMP_MAP);
    assert bump == SlotTarget(t.normal, doc);
    assert g.Property(mp, MAIN_TEXTURE) == main && g.Property(mp, SHADE_TEXTURE) == shade;
    assert g.Property(mp, SPHERE_ADD) == add;
    r := ImportTextureSlot(g, mp, EMISSION_MAP, t.emissive, doc, w0, e0);
    if r.Some? { return; }
    assert g.Property(mp, MAIN_TEXTURE) == main && g.Property(mp, SHADE_TEXTURE) == shade;
    assert g.Property(mp, SPHERE_ADD) == add && g.Property(mp, BUMP_MAP) == bump;
    assert g.Property(mp, MaterialPropertyMaterial) == before;
  }

  /** The i-th material property: it needs the i-th glTF material; a
      material-property node is created and listed on the Vrm node, bound to
      that material, given each present texture slot, then its weight. */
  method ImportMaterialProperty(g: PropertyGraph, vrm: NodeId, i: nat, p: MaterialPropertyJson, doc: Document,
                                ghost w0: seq<Weight>, ghost e0: seq<Edge>) returns (r: Option<ImportError>, mp: NodeId)
    modifies g
    requires Extends(g, w0, e0) && |w0| <= vrm < |g.weights| && DocIn(doc, |w0|)
    ensures Extends(g, w0, e0)
    ensures Framed(old(g.weights), old(g.edges), g.weights, g.edges, vrm, VrmMaterialProperty)
    ensures g.weights[vrm] == old(g.weights[vrm])
    ensures r == MaterialError(i, p, doc)
    ensures i >= |doc.materials| ==> g.weights == old(g.weights) && g.edges == old(g.edges)
    ensures i < |doc.materials| ==>
              mp == |old(g.weights)| &&
              g.Properties(vrm, VrmMaterialProperty) == old(g.Properties(vrm, VrmMaterialProperty)) + [mp]
    ensures r.None? ==> MaterialBuilt(g.weights, g.edges, mp, i, p, doc)
  {
    mp := 0;
    if i >= |doc.materials| {
      return Some(MaterialNotFound(i)), mp;
    }
    mp := NewNode(g, MaterialPropertyWeight(None, None, None, NO_FLOATS, NO_VECTORS), w0, e0);
    ghost var slotTags := [MAIN_TEXTURE, SHADE_TEXTURE, SPHERE_ADD, BUMP_MAP, EMISSION_MAP];
    assert forall k :: 0 <= k < 5 ==> g.Property(mp, slotTags[k]) == None;
    Link(g, vrm, VrmMaterialProperty, mp, w0, e0);
    assert forall k :: 0 <= k < 5 ==> g.Property(mp, slotTags[k]) == None;
    assert Framed(old(g.weights), old(g.edges), g.weights, g.edges, vrm, VrmMaterialProperty);
    ghost var ws, es := g.weights, g.edges;
    r := FillMaterialProperty(g, mp, i, p, doc, w0, e0);
    assert forall s :: 0 <= s < |ws| && s != mp ==> g.weights[s] == ws[s];
  }

  /** A fresh material property's material, texture slots and weight. */
  method FillMaterialProperty(g: PropertyGraph, mp: NodeId, i: nat, p: MaterialPropertyJson, doc: Document,
                              ghost w0: seq<Weight>, ghost e0: seq<Edge>) returns (r: Option<ImportError>)
    modifies g
    requires Extends(g, w0, e0) && |w0| <= mp < |g.weights| && DocIn(doc, |w0|) && i < |doc.materials|
    requires g.Property(mp, MAIN_TEXTURE) == None && g.Property(mp, SHADE_TEXTURE) == None
    requires g.Property(mp, SPHERE_ADD) == None && g.Property(mp, BUMP_MAP) == None
    requires g.Property(mp, EMISSION_MAP) == None
    ensures Extends(g, w0, e0) && |g.weights| == |old(g.weights)|
    ensures forall s :: 0 <= s < |g.weights| && s != mp ==> g.weights[s] == old(g.weights[s])
    ensures forall s: NodeId, l: Label :: s != mp ==> Targets(g.edges, s, l) == Targets(old(g.edges), s, l)
    ensures r == MaterialError(i, p, doc)
    ensures r.None? ==> MaterialBuilt(g.weights, g.edges, mp, i, p, doc)
  {
    SetLink(g, mp, MaterialPropertyMaterial, Some(doc.materials[i]), w0, e0);
    r := None;
    if p.texture.Some? {
      r := ImportTextureSlots(g, mp, p.texture.value, doc, w0, e0);
      if r.Some? { return; }
    }
    WriteNode(g, mp, MaterialWeightOf(p), w0, e0);
  }

  /** The material-property stage: properties in order, stopping at the
      first failure; `created` lists the nodes made, each appended to the
      Vrm node's material-property list. */
  method ImportMaterialProperties(g: PropertyGraph, vrm: NodeId, ps: seq<MaterialPropertyJson>, doc: Document,
                                  ghost w0: seq<Weight>, ghost e0: seq<Edge>)
    returns (r: Option<ImportError>, ghost created: seq<NodeId>)
    modifies g
    requires Extends(g, w0, e0) && |w0| <= vrm < |g.weights| && DocIn(doc, |w0|) && g.weights[vrm].VrmWeight?
    ensures Extends(g, w0, e0)
    ensures Framed(old(g.weights), old(g.edges), g.weights, g.edges, vrm, VrmMaterialProperty)
    ensures g.weights[vrm] == old(g.weights[vrm])
    ensures r == MaterialsError(ps, doc, 0)
    ensures g.Properties(vrm, VrmMaterialProperty) == old(g.Properties(vrm, VrmMaterialProperty)) + created
    ensures r.None? ==> |created| == |ps|
    ensures r.None? ==> forall k :: 0 <= k < |ps| ==> MaterialBuilt(g.weights, g.edges, created[k], k, ps[k], doc)
  {
    created := [];
    var i := 0;
    while i < |ps|
      invariant 0 <= i <= |ps| && |created| == i
      invariant Extends(g, w0, e0)
      invariant Framed(old(g.weights), old(g.edges), g.weights, g.edges, vrm, VrmMaterialProperty)
      invariant g.weights[vrm] == old(g.weights[vrm])
      invariant MaterialsError(ps, doc, 0) == MaterialsError(ps, doc, i)
      invariant g.Properties(vrm, VrmMaterialProperty) == old(g.Properties(vrm, VrmMaterialProperty)) + created
      invariant forall k :: 0 <= k < i ==> MaterialBuilt(g.weights, g.edges, created[k], k, ps[k], doc)
    {
      ghost var ws, es := g.weights, g.edges;
      var mp;
      r, mp := ImportMaterialProperty(g, vrm, i, ps[i], doc, w0, e0);
      FramedTrans(old(g.weights), old(g.edges), ws, es, g.weights, g.edges, vrm, VrmMaterialProperty);
      forall k | 0 <= k < i
        ensures MaterialBuilt(g.weights, g.edges, created[k], k, ps[k], doc)
      {
        MaterialKept(ws, es, g.weights, g.edges, vrm, VrmMaterialProperty, created[k], k, ps[k], doc);
      }
      if i < |doc.materials| {
        created := created + [mp];
      }
      if r.Some? {
        return;
      }
      i := i + 1;
    }
    r := None;
  }

  /** The meta stage: a thumbnail index must name a glTF texture, which
      becomes the Vrm node's thumbnail. */
  method ImportThumbnail(g: PropertyGraph, vrm: NodeId, meta: Option<MetaJson>, doc: Document,
                         ghost w0: seq<Weight>, ghost e0: seq<Edge>) returns (r: Option<ImportError>)
    modifies g
    requires Extends(g, w0, e0) && |w0| <= vrm < |g.weights| && DocIn(doc, |w0|)
    ensures Extends(g, w0, e0) && g.weights == old(g.weights)
    ensures Framed(old(g.weights), old(g.edges), g.weights, g.edges, vrm, VrmLabel(Thumbnail))
    ensures r == ThumbnailError(meta, |doc.textures|)
    ensures r.None? && meta.Some? && meta.value.texture.Some? ==>
              VrmSingle(g, vrm, Thumbnail) == SlotTarget(meta.value.texture, doc)
  {
    r := None;
    if meta.Some? && meta.value.texture.Some? {
      var idx := meta.value.texture.value;
      if idx < |doc.textures| {
        SetLink(g, vrm, VrmLabel(Thumbnail), Some(doc.textures[idx]), w0, e0);
      } else {
        r := Some(TextureNotFound(idx));
      }
    }
  }

  /** One human bone: a bone node is created, listed on the Vrm node, then
      bound to its glTF node (which must exist) and given its weight. */
  method ImportHumanBone(g: PropertyGraph, vrm: NodeId, b: BoneJson, doc: Document,
                         ghost w0: seq<Weight>, ghost e0: seq<Edge>) returns (r: Option<ImportError>, bone: NodeId)
    modifies g
    requires Extends(g, w0, e0) && |w0| <= vrm < |g.weights| && DocIn(doc, |w0|)
    ensures Extends(g, w0, e0)
    ensures bone == |old(g.weights)| && |g.weights| == bone + 1 && g.weights[..bone] == old(g.weights)
    ensures Framed(old(g.weights), old(g.edges), g.weights, g.edges, vrm, VrmLabel(HumanBone))
    ensures r == NodeError(b.node, |doc.nodes|)
    ensures g.Properties(vrm, VrmLabel(HumanBone)) == old(g.Properties(vrm, VrmLabel(HumanBone))) + [bone]
    ensures r.None? ==> HumanBoneBuilt(g.weights, g.edges, bone, b, doc)
  {
    bone := NewNode(g, BoneWeight(None, None), w0, e0);
    assert g.Property(bone, BONE_NODE) == None;
    Link(g, vrm, VrmLabel(HumanBone), bone, w0, e0);
    assert g.Property(bone, BONE_NODE) == None;
    r := None;
    if b.node.Some? {
      if b.node.value < |doc.nodes| {
        SetLink(g, bone, BONE_NODE, Some(doc.nodes[b.node.value]), w0, e0);
      } else {
        r := Some(NodeNotFound(b.node.value));
        return;
      }
    }
    WriteNode(g, bone, BoneWeight(b.bone, b.useDefaultValues), w0, e0);
  }

  /** The humanoid stage: bones are created in JSON order and listed on
      the Vrm node; the first node index that names no glTF node stops the
      import. */
  method ImportHumanBones(g: PropertyGraph, vrm: NodeId, bones: seq<BoneJson>, doc: Document,
                          ghost w0: seq<Weight>, ghost e0: seq<Edge>) returns (r: Option<ImportError>, created: seq<NodeId>)
    modifies g
    requires Extends(g, w0, e0) && |w0| <= vrm < |g.weights| && DocIn(doc, |w0|) && g.weights[vrm].VrmWeight?
    ensures Extends(g, w0, e0)
    ensures Framed(old(g.weights), old(g.edges), g.weights, g.edges, vrm, VrmLabel(HumanBone))
    ensures g.weights[vrm] == old(g.weights[vrm])
    ensures r == BonesError(bones, |doc.nodes|, 0)
    ensures r.None? ==> |created| == |bones|
    ensures forall k :: 0 <= k < |created| ==> created[k] == |old(g.weights)| + k && created[k] < |g.weights|
    ensures g.Properties(vrm, VrmLabel(HumanBone)) == old(g.Properties(vrm, VrmLabel(HumanBone))) + created
    ensures r.None? ==> forall k :: 0 <= k < |created| ==> HumanBoneBuilt(g.weights, g.edges, created[k], bones[k], doc)
  {
    created := [];
    var i := 0;
    while i < |bones|
      invariant 0 <= i <= |bones| && |created| == i
      invariant Extends(g, w0, e0) && |g.weights| == |old(g.weights)| + i
      invariant Framed(old(g.weights), old(g.edges), g.weights, g.edges, vrm, VrmLabel(HumanBone))
      invariant g.weights[vrm] == old(g.weights[vrm])
      invariant forall k :: 0 <= k < i ==> created[k] == |old(g.weights)| + k
      invariant g.Properties(vrm, VrmLabel(HumanBone)) == old(g.Properties(vrm, VrmLabel(HumanBone))) + created
      invariant BonesError(bones, |doc.nodes|, 0) == BonesError(bones, |doc.nodes|, i)
      invariant forall k :: 0 <= k < i ==> HumanBoneBuilt(g.weights, g.edges, created[k], bones[k], doc)
    {
      ghost var ws, es := g.weights, g.edges;
      var bone;
      r, bone := ImportHumanBone(g, vrm, bones[i], doc, w0, e0);
      FramedTrans(old(g.weights), old(g.edges), ws, es, g.weights, g.edges, vrm, VrmLabel(HumanBone));
      created := created + [bone];
      if r.Some? {
        return;
      }
      forall k | 0 <= k < i
        ensures HumanBoneBuilt(g.weights, g.edges, created[k], bones[k], doc)
      {
        HumanBoneKept(ws, es, g.weights, g.edges, vrm, VrmLabel(HumanBone), created[k], bones[k], doc);
      }
      i := i + 1;
    }
    r := None;
  }

  /** The first-person stage: the bone index refers to the human bones
      created above, not to glTF nodes. */
  method ImportFirstPerson(g: PropertyGraph, vrm: NodeId, created: seq<NodeId>, fp: Option<FirstPersonJson>,
                           ghost w0: seq<Weight>, ghost e0: seq<Edge>) returns (r: Option<ImportError>)
    modifies g
    requires Extends(g, w0, e0) && |w0| <= vrm < |g.weights|
    requires forall k :: 0 <= k < |created| ==> created[k] < |g.weights|
    ensures Extends(g, w0, e0) && g.weights == old(g.weights)
    ensures Framed(old(g.weights), old(g.edges), g.weights, g.edges, vrm, VrmLabel(FirstPersonBone))
    ensures r == FirstPersonError(fp, |created|)
    ensures r.None? && fp.Some? && fp.value.firstPersonBone.Some? ==>
              VrmSingle(g, vrm, FirstPersonBone) == Some(created[fp.value.firstPersonBone.value])
  {
    r := None;
    if fp.Some? && fp.value.firstPersonBone.Some? {
      var idx := fp.value.firstPersonBone.value;
      if idx < |created| {
        SetLink(g, vrm, VrmLabel(FirstPersonBone), Some(created[idx]), w0, e0);
      } else {
        r := Some(BoneNotFound(idx));
      }
    }
  }

  /** One blend-shape bind: the node is created, bound to its primitive
      only when the mesh and the primitive exist, and given its weight. */
  method ImportBind(g: PropertyGraph, b: BindJson, doc: Document,
                    ghost w0: seq<Weight>, ghost e0: seq<Edge>) returns (bind: NodeId)
    modifies g
    requires Extends(g, w0, e0) && DocIn(doc, |w0|)
    ensures Extends(g, w0, e0)
    ensures bind == |old(g.weights)| && |g.weights| == bind + 1 && g.weights[..bind] == old(g.weights)
    ensures g.weights[bind] == BindWeight(b.weight)
    ensures g.Property(bind, BIND_PRIMITIVE) == BindTarget(b, doc)
    ensures forall s: NodeId, l: Label :: s < bind ==> Targets(g.edges, s, l) == Targets(old(g.edges), s, l)
  {
    bind := NewNode(g, BindWeight(None), w0, e0);
    if b.mesh.Some? && b.mesh.value < |doc.meshes| {
      var prims := doc.meshes[b.mesh.value];
      var index := b.index.GetOr(0);
      if index < |prims| {
        SetLink(g, bind, BIND_PRIMITIVE, Some(prims[index]), w0, e0);
      }
    }
    WriteNode(g, bind, BindWeight(b.weight), w0, e0);
  }

  /** One blend-shape group: the group node and its binds are created, but
      neither is linked to the other or to the Vrm node. */
  method ImportBlendShapeGroup(g: PropertyGraph, grp: BlendShapeGroupJson, doc: Document,
                               ghost w0: seq<Weight>, ghost e0: seq<Edge>) returns (group: NodeId)
    modifies g
    requires Extends(g, w0, e0) && DocIn(doc, |w0|)
    ensures Extends(g, w0, e0)
    ensures group == |old(g.weights)| && group < |g.weights| && g.weights[..group] == old(g.weights)
    ensures g.weights[group] == BlendShapeGroupWeight(grp.name, grp.presetName, grp.isBinary)
    ensures forall s: NodeId, l: Label :: s < group ==> Targets(g.edges, s, l) == Targets(old(g.edges), s, l)
  {
    group := NewNode(g, BlendShapeGroupWeight(None, None, None), w0, e0);
    var binds := grp.binds.GetOr([]);
    var i := 0;
    while i < |binds|
      invariant 0 <= i <= |binds|
      invariant Extends(g, w0, e0) && group < |g.weights| && g.weights[..group] == old(g.weights)
      invariant forall s: NodeId, l: Label :: s < group ==> Targets(g.edges, s, l) == Targets(old(g.edges), s, l)
    {
      ghost var before := g.weights;
      var bind := ImportBind(g, binds[i], doc, w0, e0);
      assert g.weights[..group] == before[..group];
      i := i + 1;
    }
    WriteNode(g, group, BlendShapeGroupWeight(grp.name, grp.presetName, grp.isBinary), w0, e0);
    assert g.weights[..group] == old(g.weights);
  }

  /** The blend-shape stage never fails and attaches nothing to nodes that
      existed before it; in particular the Vrm node's blend-shape-group list
      is left as it was. */
  method ImportBlendShapes(g: PropertyGraph, master: Option<BlendShapeMasterJson>, doc: Document,
                           ghost w0: seq<Weight>, ghost e0: seq<Edge>)
    modifies g
    requires Extends(g, w0, e0) && DocIn(doc, |w0|)
    ensures Extends(g, w0, e0) && Grown(old(g.weights), old(g.edges), g.weights, g.edges)
  {
    if master.Some? {
      var groups := master.value.groups.GetOr([]);
      var i := 0;
      while i < |groups|
        invariant 0 <= i <= |groups|
        invariant Extends(g, w0, e0) && Grown(old(g.weights), old(g.edges), g.weights, g.edges)
      {
        ghost var ws, es := g.weights, g.edges;
        var group := ImportBlendShapeGroup(g, groups[i], doc, w0, e0);
        GrownTrans(old(g.weights), old(g.edges), ws, es, g.weights, g.edges);
        i := i + 1;
      }
    }
  }

  /** One collider group: the node is created, bound to its glTF node
      (which must exist) and given its weight. */
  method ImportColliderGroup(g: PropertyGraph, cg: ColliderGroupJson, doc: Document,
                             ghost w0: seq<Weight>, ghost e0: seq<Edge>) returns (r: Option<ImportError>, id: NodeId)
    modifies g
    requires Extends(g, w0, e0) && DocIn(doc, |w0|)
    ensures Extends(g, w0, e0)
    ensures id == |old(g.weights)| && |g.weights| == id + 1
    ensures Grown(old(g.weights), old(g.edges), g.weights, g.edges)
    ensures r == NodeError(cg.node, |doc.nodes|)
    ensures r.None? ==> ColliderBuilt(g.weights, g.edges, id, cg, doc)
  {
    id := NewNode(g, ColliderGroupWeight(0), w0, e0);
    r := None;
    if cg.node.Some? {
      if cg.node.value < |doc.nodes| {
        SetLink(g, id, COLLIDER_GROUP_NODE, Some(doc.nodes[cg.node.value]), w0, e0);
      } else {
        r := Some(NodeNotFound(cg.node.value));
        assert g.weights[..id] == old(g.weights);
        return;
      }
    }
    ghost var slot := g.Property(id, COLLIDER_GROUP_NODE);
    WriteNode(g, id, ColliderGroupWeight(cg.colliders.GetOr(0)), w0, e0);
    assert g.Property(id, COLLIDER_GROUP_NODE) == slot;
    assert g.weights[..id] == old(g.weights);
  }

  /** All collider groups, in order, before any bone group; none is listed
      on the Vrm node. */
  method ImportColliderGroups(g: PropertyGraph, cgs: seq<ColliderGroupJson>, doc: Document,
                              ghost w0: seq<Weight>, ghost e0: seq<Edge>) returns (r: Option<ImportError>, ids: seq<NodeId>)
    modifies g
    requires Extends(g, w0, e0) && DocIn(doc, |w0|)
    ensures Extends(g, w0, e0) && Grown(old(g.weights), old(g.edges), g.weights, g.edges)
    ensures r == ColliderGroupsError(cgs, |doc.nodes|, 0)
    ensures r.None? ==> |ids| == |cgs|
    ensures forall k :: 0 <= k < |ids| ==> ids[k] == |old(g.weights)| + k && ids[k] < |g.weights|
    ensures r.None? ==> forall k :: 0 <= k < |ids| ==> ColliderBuilt(g.weights, g.edges, ids[k], cgs[k], doc)
  {
    ids := [];
    var i := 0;
    while i < |cgs|
      invariant 0 <= i <= |cgs| && |ids| == i
      invariant Extends(g, w0, e0) && |g.weights| == |old(g.weights)| + i
      invariant Grown(old(g.weights), old(g.edges), g.weights, g.edges)
      invariant forall k :: 0 <= k < i ==> ids[k] == |old(g.weights)| + k
      invariant ColliderGroupsError(cgs, |doc.nodes|, 0) == ColliderGroupsError(cgs, |doc.nodes|, i)
      invariant forall k :: 0 <= k < i ==> ColliderBuilt(g.weights, g.edges, ids[k], cgs[k], doc)
    {
      ghost var ws, es := g.weights, g.edges;
      var id;
      r, id := ImportColliderGroup(g, cgs[i], doc, w0, e0);
      GrownTrans(old(g.weights), old(g.edges), ws, es, g.weights, g.edges);
      ids := ids + [id];
      if r.Some? {
        return;
      }
      forall k | 0 <= k < i
        ensures ColliderBuilt(g.weights, g.edges, ids[k], cgs[k], doc)
      {
        GrownKept(ws, es, g.weights, g.edges, ids[k], COLLIDER_GROUP_NODE);
      }
      i := i + 1;
    }
    r := None;
  }

  lemma LookupStep(xs: seq<nat>, ys: seq<NodeId>, i: nat)
    requires i < |xs| && AllBelow(xs[..i], |ys|) && xs[i] < |ys|
    ensures AllBelow(xs[..i + 1], |ys|)
    ensures Lookup(xs[..i + 1], ys) == Lookup(xs[..i], ys) + [ys[xs[i]]]
  {
    assert xs[..i + 1][..i] == xs[..i];
    assert forall k :: 0 <= k < i ==> xs[..i + 1][k] == xs[..i][k];
  }

  lemma FirstAtLeastHit(xs: seq<nat>, count: nat, i: nat)
    requires i < |xs| && xs[i] >= count
    ensures FirstAtLeast(xs[i..], count) == Some(xs[i])
  {
    assert xs[i..][0] == xs[i];
  }

  lemma FirstAtLeastStep(xs: seq<nat>, count: nat, i: nat)
    requires i < |xs| && xs[i] < count
    ensures FirstAtLeast(xs[i..], count) == FirstAtLeast(xs[i + 1..], count)
  {
    assert xs[i..][1..] == xs[i + 1..];
  }

  /** The loop both bone-group lists share: each index must name an entry
      of `ys`, whose node is appended to `node`'s `tag` list; the first
      index that does not is returned and the loop stops there. */
  method LinkAll(g: PropertyGraph, node: NodeId, tag: Label, xs: seq<nat>, ys: seq<NodeId>,
                 ghost w0: seq<Weight>, ghost e0: seq<Edge>) returns (bad: Option<nat>)
    modifies g
    requires Extends(g, w0, e0) && |w0| <= node < |g.weights|
    requires forall k :: 0 <= k < |ys| ==> ys[k] < |g.weights|
    requires g.Properties(node, tag) == []
    ensures Extends(g, w0, e0) && g.weights == old(g.weights)
    ensures bad == FirstAtLeast(xs, |ys|)
    ensures bad.None? ==> AllBelow(xs, |ys|) && g.Properties(node, tag) == Lookup(xs, ys)
    ensures forall s: NodeId, l: Label :: (s != node || l != tag) ==> Targets(g.edges, s, l) == Targets(old(g.edges), s, l)
  {
    var i := 0;
    while i < |xs|
      invariant 0 <= i <= |xs|
      invariant Extends(g, w0, e0) && g.weights == old(g.weights)
      invariant FirstAtLeast(xs, |ys|) == FirstAtLeast(xs[i..], |ys|)
      invariant AllBelow(xs[..i], |ys|) && g.Properties(node, tag) == Lookup(xs[..i], ys)
      invariant forall s: NodeId, l: Label :: (s != node || l != tag) ==> Targets(g.edges, s, l) == Targets(old(g.edges), s, l)
    {
      if xs[i] >= |ys| {
        FirstAtLeastHit(xs, |ys|, i);
        return Some(xs[i]);
      }
      Link(g, node, tag, ys[xs[i]], w0, e0);
      FirstAtLeastStep(xs, |ys|, i);
      LookupStep(xs, ys, i);
      i := i + 1;
    }
    assert xs[..i] == xs && xs[i..] == [];
    bad := None;
  }

  /** The group's `bones`: each index must name a glTF node, which is
      appended to the group's bone list. */
  method ImportGroupBones(g: PropertyGraph, node: NodeId, xs: seq<nat>, doc: Document,
                          ghost w0: seq<Weight>, ghost e0: seq<Edge>) returns (r: Option<ImportError>)
    modifies g
    requires Extends(g, w0, e0) && |w0| <= node < |g.weights| && DocIn(doc, |w0|)
    requires g.Properties(node, BONE_GROUP_BONE) == []
    ensures Extends(g, w0, e0) && g.weights == old(g.weights)
    ensures r == (if FirstAtLeast(xs, |doc.nodes|).Some? then Some(BoneNotFound(FirstAtLeast(xs, |doc.nodes|).value)) else None)
    ensures r.None? ==> AllBelow(xs, |doc.nodes|) && g.Properties(node, BONE_GROUP_BONE) == Lookup(xs, doc.nodes)
    ensures forall s: NodeId, l: Label :: (s != node || l != BONE_GROUP_BONE) ==> Targets(g.edges, s, l) == Targets(old(g.edges), s, l)
  {
    var bad := LinkAll(g, node, BONE_GROUP_BONE, xs, doc.nodes, w0, e0);
    r := if bad.Some? then Some(BoneNotFound(bad.value)) else None;
  }

  /** The group's `colliderGroups`: each index must name a collider group
      created by this import, which is appended to the group's list. */
  method ImportGroupColliders(g: PropertyGraph, node: NodeId, xs: seq<nat>, cgIds: seq<NodeId>,
                              ghost w0: seq<Weight>, ghost e0: seq<Edge>) returns (r: Option<ImportError>)
    modifies g
    requires Extends(g, w0, e0) && |w0| <= node < |g.weights|
    requires forall k :: 0 <= k < |cgIds| ==> cgIds[k] < |g.weights|
    requires g.Properties(node, BONE_GROUP_COLLIDER_GROUP) == []
    ensures Extends(g, w0, e0) && g.weights == old(g.weights)
    ensures r == (if FirstAtLeast(xs, |cgIds|).Some? then Some(ColliderGroupNotFound(FirstAtLeast(xs, |cgIds|).value)) else None)
    ensures r.None? ==> AllBelow(xs, |cgIds|) && g.Properties(node, BONE_GROUP_COLLIDER_GROUP) == Lookup(xs, cgIds)
    ensures forall s: NodeId, l: Label :: (s != node || l != BONE_GROUP_COLLIDER_GROUP) ==> Targets(g.edges, s, l) == Targets(old(g.edges), s, l)
  {
    var bad := LinkAll(g, node, BONE_GROUP_COLLIDER_GROUP, xs, cgIds, w0, e0);
    r := if bad.Some? then Some(ColliderGroupNotFound(bad.value)) else None;
  }

  /** The default `BoneGroupWeight` and the one written from the JSON; a
      missing gravity direction is the zero vector. */
  function BoneGroupWeightOf(bg: BoneGroupJson): Weight {
    BoneGroupWeight(bg.center, bg.comment, bg.stiffiness, bg.dragForce, bg.hitRadius,
                    bg.gravityDir.GetOr(Vec3(0.0, 0.0, 0.0)), bg.gravityPower)
  }

  /** The imported collider groups `ids`, one per JSON entry of `cgs`. */
  ghost predicate CollidersBuilt(ws: seq<Weight>, es: seq<Edge>, ids: seq<NodeId>, cgs: seq<ColliderGroupJson>, doc: Document) {
    |ids| == |cgs| && forall k :: 0 <= k < |ids| ==> ColliderBuilt(ws, es, ids[k], cgs[k], doc)
  }

  /** The bone groups `nodes` imported so far, one per leading entry of `bgs`. */
  ghost predicate GroupListBuilt(ws: seq<Weight>, es: seq<Edge>, nodes: seq<NodeId>, bgs: seq<BoneGroupJson>,
                                 cgs: seq<ColliderGroupJson>, doc: Document) {
    |nodes| <= |bgs| && forall k :: 0 <= k < |nodes| ==> BoneGroupBuilt(ws, es, nodes[k], bgs[k], cgs, doc)
  }

  /** One bone group: the node is created and listed on the Vrm node, its
      bones then its collider groups are resolved, then its weight. The
      collider groups `cgIds` are those imported from `cgs`. */
  method ImportBoneGroup(g: PropertyGraph, vrm: NodeId, bg: BoneGroupJson, doc: Document, cgIds: seq<NodeId>,
                         ghost cgs: seq<ColliderGroupJson>, ghost w0: seq<Weight>, ghost e0: seq<Edge>)
    returns (r: Option<ImportError>, node: NodeId)
    modifies g
    requires Extends(g, w0, e0) && |w0| <= vrm < |g.weights| && DocIn(doc, |w0|) && g.weights[vrm].VrmWeight?
    requires CollidersBuilt(g.weights, g.edges, cgIds, cgs, doc)
    ensures Extends(g, w0, e0) && node == |old(g.weights)| && |g.weights| == node + 1
    ensures Framed(old(g.weights), old(g.edges), g.weights, g.edges, vrm, VrmBoneGroup)
    ensures g.weights[vrm] == old(g.weights[vrm])
    ensures g.Properties(vrm, VrmBoneGroup) == old(g.Properties(vrm, VrmBoneGroup)) + [node]
    ensures r == BoneGroupError(bg, |doc.nodes|, |cgIds|)
    ensures r.None? ==> BoneGroupBuilt(g.weights, g.edges, node, bg, cgs, doc)
  {
    ghost var ws0, es0 := g.weights, g.edges;
    node := NewNode(g, BoneGroupWeight(None, None, None, None, None, Vec3(0.0, 0.0, 0.0), None), w0, e0);
    assert g.Properties(node, BONE_GROUP_BONE) == [] && g.Properties(node, BONE_GROUP_COLLIDER_GROUP) == [];
    Link(g, vrm, VrmBoneGroup, node, w0, e0);
    assert g.Properties(node, BONE_GROUP_BONE) == [] && g.Properties(node, BONE_GROUP_COLLIDER_GROUP) == [];
    r := ImportGroupBones(g, node, bg.bones.GetOr([]), doc, w0, e0);
    if r.Some? {
      return;
    }
    assert |BONE_GROUP_BONE.text| != |BONE_GROUP_COLLIDER_GROUP.text|;
    r := ImportGroupColliders(g, node, bg.colliderGroups.GetOr([]), cgIds, w0, e0);
    if r.Some? {
      return;
    }
    WriteNode(g, node, BoneGroupWeightOf(bg), w0, e0);
    GroupCollidersBuilt(ws0, es0, g.weights, g.edges, vrm, node, bg.colliderGroups.GetOr([]), cgIds, cgs, doc);
  }

  /** An imported collider group stays built across a bone group's import. */
  lemma ColliderAt(ws0: seq<Weight>, es0: seq<Edge>, ws1: seq<Weight>, es1: seq<Edge>, vrm: NodeId,
                   cgIds: seq<NodeId>, cgs: seq<ColliderGroupJson>, doc: Document, k: nat)
    requires Framed(ws0, es0, ws1, es1, vrm, VrmBoneGroup) && vrm < |ws0| && ws0[vrm].VrmWeight?
    requires |cgIds| == |cgs| && forall k :: 0 <= k < |cgIds| ==> ColliderBuilt(ws0, es0, cgIds[k], cgs[k], doc)
    requires k < |cgIds|
    ensures ColliderBuilt(ws1, es1, cgIds[k], cgs[k], doc)
  {
    ColliderKept(ws0, es0, ws1, es1, vrm, VrmBoneGroup, cgIds[k], cgs[k], doc);
  }

  /** The collider list a bone group ends with names the imported collider
      groups its indices pick. */
  lemma {:induction false} GroupCollidersBuilt(ws0: seq<Weight>, es0: seq<Edge>, ws1: seq<Weight>, es1: seq<Edge>, vrm: NodeId, node: NodeId,
                            xs: seq<nat>, cgIds: seq<NodeId>, cgs: seq<ColliderGroupJson>, doc: Document)
    requires Framed(ws0, es0, ws1, es1, vrm, VrmBoneGroup) && vrm < |ws0| && ws0[vrm].VrmWeight?
    requires |cgIds| == |cgs| && forall k :: 0 <= k < |cgIds| ==> ColliderBuilt(ws0, es0, cgIds[k], cgs[k], doc)
    requires AllBelow(xs, |cgIds|) && Targets(es1, node, BONE_GROUP_COLLIDER_GROUP) == Lookup(xs, cgIds)
    ensures forall j :: 0 <= j < |xs| ==> ColliderBuilt(ws1, es1, Targets(es1, node, BONE_GROUP_COLLIDER_GROUP)[j], cgs[xs[j]], doc)
  {
    LookupAt(xs, cgIds);
    var ids := Targets(es1, node, BONE_GROUP_COLLIDER_GROUP);
    forall j | 0 <= j < |xs|
      ensures ColliderBuilt(ws1, es1, ids[j], cgs[xs[j]], doc)
    {
      ColliderAt(ws0, es0, ws1, es1, vrm, cgIds, cgs, doc, xs[j]);
    }
  }

  /** The bone-group stage: groups in order, each listed on the Vrm node;
      `created` lists the nodes made. */
  method ImportBoneGroups(g: PropertyGraph, vrm: NodeId, bgs: seq<BoneGroupJson>, doc: Document, cgIds: seq<NodeId>,
                          ghost cgs: seq<ColliderGroupJson>, ghost w0: seq<Weight>, ghost e0: seq<Edge>)
    returns (r: Option<ImportError>, ghost created: seq<NodeId>)
    modifies g
    requires Extends(g, w0, e0) && |w0| <= vrm < |g.weights| && DocIn(doc, |w0|) && g.weights[vrm].VrmWeight?
    requires CollidersBuilt(g.weights, g.edges, cgIds, cgs, doc)
    ensures Extends(g, w0, e0)
    ensures Framed(old(g.weights), old(g.edges), g.weights, g.edges, vrm, VrmBoneGroup)
    ensures g.weights[vrm] == old(g.weights[vrm])
    ensures r == BoneGroupsError(bgs, |doc.nodes|, |cgIds|, 0)
    ensures g.Properties(vrm, VrmBoneGroup) == old(g.Properties(vrm, VrmBoneGroup)) + created
    ensures r.None? ==> |created| == |bgs|
    ensures r.None? ==> GroupListBuilt(g.weights, g.edges, created, bgs, cgs, doc)
  {
    created := [];
    var i := 0;
    while i < |bgs|
      invariant 0 <= i <= |bgs| && |created| == i
      invariant Extends(g, w0, e0)
      invariant Framed(old(g.weights), old(g.edges), g.weights, g.edges, vrm, VrmBoneGroup)
      invariant g.weights[vrm] == old(g.weights[vrm])
      invariant BoneGroupsError(bgs, |doc.nodes|, |cgIds|, 0) == BoneGroupsError(bgs, |doc.nodes|, |cgIds|, i)
      invariant g.Properties(vrm, VrmBoneGroup) == old(g.Properties(vrm, VrmBoneGroup)) + created
      invariant CollidersBuilt(g.weights, g.edges, cgIds, cgs, doc)
      invariant GroupListBuilt(g.weights, g.edges, created, bgs, cgs, doc)
    {
      ghost var ws, es := g.weights, g.edges;
      var node;
      r, node := ImportNextBoneGroup(g, vrm, bgs, i, doc, cgIds, cgs, created, w0, e0);
      FramedTrans(old(g.weights), old(g.edges), ws, es, g.weights, g.edges, vrm, VrmBoneGroup);
      created := created + [node];
      if r.Some? {
        return;
      }
      i := i + 1;
    }
    r := None;
  }

  /** The next bone group of the stage, `bgs[i]`, after the groups
      `done`: those and the collider groups stay built. */
  method ImportNextBoneGroup(g: PropertyGraph, vrm: NodeId, bgs: seq<BoneGroupJson>, i: nat, doc: Document, cgIds: seq<NodeId>,
                             ghost cgs: seq<ColliderGroupJson>, ghost done: seq<NodeId>, ghost w0: seq<Weight>, ghost e0: seq<Edge>)
    returns (r: Option<ImportError>, node: NodeId)
    modifies g
    requires Extends(g, w0, e0) && |w0| <= vrm < |g.weights| && DocIn(doc, |w0|) && g.weights[vrm].VrmWeight?
    requires CollidersBuilt(g.weights, g.edges, cgIds, cgs, doc) && GroupListBuilt(g.weights, g.edges, done, bgs, cgs, doc)
    requires i == |done| < |bgs|
    ensures Extends(g, w0, e0)
    ensures Framed(old(g.weights), old(g.edges), g.weights, g.edges, vrm, VrmBoneGroup)
    ensures g.weights[vrm] == old(g.weights[vrm])
    ensures g.Properties(vrm, VrmBoneGroup) == old(g.Properties(vrm, VrmBoneGroup)) + [node]
    ensures r == BoneGroupError(bgs[i], |doc.nodes|, |cgIds|)
    ensures r.None? ==> CollidersBuilt(g.weights, g.edges, cgIds, cgs, doc)
    ensures r.None? ==> GroupListBuilt(g.weights, g.edges, done + [node], bgs, cgs, doc)
  {
    ghost var ws, es := g.weights, g.edges;
    r, node := ImportBoneGroup(g, vrm, bgs[i], doc, cgIds, cgs, w0, e0);
    if r.None? {
      GroupsStep(ws, es, g.weights, g.edges, vrm, cgIds, cgs, done, node, bgs, doc);
    }
  }

  /** One bone group's import keeps the collider groups and the bone
      groups built before it, and adds its own. */
  lemma {:induction false} GroupsStep(ws0: seq<Weight>, es0: seq<Edge>, ws1: seq<Weight>, es1: seq<Edge>, vrm: NodeId,
                                      cgIds: seq<NodeId>, cgs: seq<ColliderGroupJson>, created: seq<NodeId>, node: NodeId,
                                      bgs: seq<BoneGroupJson>, doc: Document)
    requires Framed(ws0, es0, ws1, es1, vrm, VrmBoneGroup) && vrm < |ws0| && ws0[vrm].VrmWeight?
    requires CollidersBuilt(ws0, es0, cgIds, cgs, doc) && GroupListBuilt(ws0, es0, created, bgs, cgs, doc)
    requires |created| < |bgs| && BoneGroupBuilt(ws1, es1, node, bgs[|created|], cgs, doc)
    ensures CollidersBuilt(ws1, es1, cgIds, cgs, doc) && GroupListBuilt(ws1, es1, created + [node], bgs, cgs, doc)
  {
    forall k | 0 <= k < |cgIds|
      ensures ColliderBuilt(ws1, es1, cgIds[k], cgs[k], doc)
    {
      ColliderKept(ws0, es0, ws1, es1, vrm, VrmBoneGroup, cgIds[k], cgs[k], doc);
    }
    forall k | 0 <= k < |created|
      ensures BoneGroupBuilt(ws1, es1, created[k], bgs[k], cgs, doc)
    {
      BoneGroupKept(ws0, es0, ws1, es1, vrm, VrmBoneGroup, created[k], bgs[k], cgs, doc);
    }
  }

  /** The secondary-animation stage: without `secondaryAnimation` nothing
      is imported; otherwise collider groups, then bone groups resolved
      against them, the bone groups listed on the Vrm node as `created`. */
  method ImportSecondary(g: PropertyGraph, vrm: NodeId, v: VrmJson, doc: Document,
                         ghost w0: seq<Weight>, ghost e0: seq<Edge>) returns (r: Option<ImportError>, ghost created: seq<NodeId>)
    modifies g
    requires Extends(g, w0, e0) && |w0| <= vrm < |g.weights| && DocIn(doc, |w0|) && g.weights[vrm].VrmWeight?
    ensures Extends(g, w0, e0)
    ensures Framed(old(g.weights), old(g.edges), g.weights, g.edges, vrm, VrmBoneGroup)
    ensures g.weights[vrm] == old(g.weights[vrm])
    ensures r == SecondaryError(v, |doc.nodes|)
    ensures v.secondaryAnimation.None? ==> g.weights == old(g.weights) && g.edges == old(g.edges)
    ensures g.Properties(vrm, VrmBoneGroup) == old(g.Properties(vrm, VrmBoneGroup)) + created
    ensures r.None? ==> |created| == |BoneGroups(v)|
    ensures r.None? ==> forall k :: 0 <= k < |created| ==>
              BoneGroupBuilt(g.weights, g.edges, created[k], BoneGroups(v)[k], ColliderGroups(v), doc)
  {
    r, created := None, [];
    if v.secondaryAnimation.Some? {
      ghost var ws, es := g.weights, g.edges;
      var ids;
      r, ids := ImportColliderGroups(g, ColliderGroups(v), doc, w0, e0);
      GrownFramed(ws, es, g.weights, g.edges, vrm, VrmBoneGroup);
      if r.Some? {
        return;
      }
      ghost var ws1, es1 := g.weights, g.edges;
      r, created := ImportBoneGroups(g, vrm, BoneGroups(v), doc, ids, ColliderGroups(v), w0, e0);
      FramedTrans(ws, es, ws1, es1, g.weights, g.edges, vrm, VrmBoneGroup);
    }
  }

  /** `import`: with no `"VRM"` entry the graph is left alone; an entry
      that does not deserialise is a parse error, also before anything is
      written; otherwise a Vrm node is created and attached to the document
      root, the stages run in order and the first unresolved index is the
      error. The Vrm weight is written last, only on success. */
  method Import(g: PropertyGraph, extensions: Option<map<string, RawVrm>>, doc: Document)
    returns (r: Result<(), ImportError>)
    modifies g
    requires g.Valid() && DocIn(doc, |g.weights|)
    ensures r == ExpectedResult(extensions, doc)
    ensures Extends(g, old(g.weights), old(g.edges))
    ensures !(VrmEntry(extensions).Some? && VrmEntry(extensions).value.Parsed?) ==>
              g.weights == old(g.weights) && g.edges == old(g.edges)
    ensures VrmEntry(extensions).Some? && VrmEntry(extensions).value.Parsed? ==>
              |old(g.weights)| < |g.weights| && |old(g.edges)| < |g.edges| &&
              g.edges[|old(g.edges)|] == Edge(doc.root, Extension(EXTENSION_NAME), |old(g.weights)|)
    ensures VrmEntry(extensions).Some? && r.Ok? ==>
              VrmBuilt(g.weights, g.edges, |old(g.weights)|, VrmEntry(extensions).value.vrm, doc)
    ensures VrmEntry(extensions).Some? && VrmEntry(extensions).value.Parsed? && r.Err? ==>
              g.weights[|old(g.weights)|] == VrmWeight("")
  {
    var entry := VrmEntry(extensions);
    if entry.None? {
      return Ok(());
    }
    if entry.value.Malformed? {
      return Err(ParseError);
    }
    var err := ImportParsed(g, entry.value.vrm, doc);
    if err.Some? {
      return Err(err.value);
    }
    r := Ok(());
  }

  /** `import` once the `"VRM"` entry has deserialised: the Vrm node is
      created and attached to the document root as its `"VRM"`-named
      extension, then the stages run. */
  method ImportParsed(g: PropertyGraph, v: VrmJson, doc: Document) returns (err: Option<ImportError>)
    modifies g
    requires g.Valid() && DocIn(doc, |g.weights|)
    ensures Extends(g, old(g.weights), old(g.edges))
    ensures |old(g.weights)| < |g.weights| && |old(g.edges)| < |g.edges| &&
            g.edges[|old(g.edges)|] == Edge(doc.root, Extension(EXTENSION_NAME), |old(g.weights)|)
    ensures err == VrmError(v, doc)
    ensures err.None? ==> VrmBuilt(g.weights, g.edges, |old(g.weights)|, v, doc)
    ensures err.Some? ==> g.weights[|old(g.weights)|] == VrmWeight("")
  {
    ghost var w0 := g.weights;
    ghost var e0 := g.edges;
    var vrm := NewVrm(g);
    assert g.Properties(vrm, VrmMaterialProperty) == [] && g.Properties(vrm, VrmLabel(HumanBone)) == [];
    assert g.Properties(vrm, VrmBoneGroup) == [];
    g.AddProperty(doc.root, Extension(EXTENSION_NAME), vrm);
    ghost var e1 := g.edges;
    assert e1[..|e0|] == e0;
    assert Extends(g, w0, e1);
    AddedLast(e0, doc.root, Extension(EXTENSION_NAME), vrm, vrm, VrmMaterialProperty);
    AddedLast(e0, doc.root, Extension(EXTENSION_NAME), vrm, vrm, VrmLabel(HumanBone));
    AddedLast(e0, doc.root, Extension(EXTENSION_NAME), vrm, vrm, VrmBoneGroup);
    err := ImportStages(g, vrm, v, doc, w0, e1);
    assert g.edges[..|e0|] == g.edges[..|e1|][..|e0|];
    assert g.edges[|e0|] == g.edges[..|e1|][|e0|];
  }

  /** The stages of `import` after the Vrm node exists, in order, stopping
      at the first error. The Vrm weight is written only when all succeed,
      and the Vrm node's lists then hold exactly the nodes built from the
      JSON, in order. */
  method ImportStages(g: PropertyGraph, vrm: NodeId, v: VrmJson, doc: Document,
                      ghost w0: seq<Weight>, ghost e0: seq<Edge>) returns (r: Option<ImportError>)
    modifies g
    requires Extends(g, w0, e0) && |w0| <= vrm < |g.weights| && DocIn(doc, |w0|) && g.weights[vrm].VrmWeight?
    requires g.Properties(vrm, VrmMaterialProperty) == [] && g.Properties(vrm, VrmLabel(HumanBone)) == []
    requires g.Properties(vrm, VrmBoneGroup) == []
    ensures Extends(g, w0, e0) && |old(g.weights)| <= |g.weights|
    ensures r == VrmError(v, doc)
    ensures r.Some? ==> g.weights[vrm] == old(g.weights[vrm])
    ensures r.None? ==> VrmBuilt(g.weights, g.edges, vrm, v, doc)
  {
    r := ImportMaterialsAndMeta(g, vrm, v, doc, w0, e0);
    if r.Some? {
      return;
    }
    r := ImportHumanoidStages(g, vrm, v, doc, w0, e0);
    if r.Some? {
      return;
    }
    r := ImportLastStages(g, vrm, v, doc, w0, e0);
  }

  /** The blend-shape and secondary-animation stages, then the Vrm weight,
      written only when both succeed. */
  method ImportLastStages(g: PropertyGraph, vrm: NodeId, v: VrmJson, doc: Document,
                          ghost w0: seq<Weight>, ghost e0: seq<Edge>) returns (r: Option<ImportError>)
    modifies g
    requires Extends(g, w0, e0) && |w0| <= vrm < |g.weights| && DocIn(doc, |w0|) && g.weights[vrm].VrmWeight?
    requires MaterialsBuilt(g.weights, g.edges, vrm, v, doc) && BonesBuilt(g.weights, g.edges, vrm, v, doc)
    requires g.Properties(vrm, VrmBoneGroup) == []
    ensures Extends(g, w0, e0) && |old(g.weights)| <= |g.weights|
    ensures r == SecondaryError(v, |doc.nodes|)
    ensures r.Some? ==> g.weights[vrm] == old(g.weights[vrm])
    ensures r.None? ==> VrmBuilt(g.weights, g.edges, vrm, v, doc)
  {
    ghost var ws4, es4 := g.weights, g.edges;
    ImportBlendShapes(g, v.blendShapeMaster, doc, w0, e0);
    GrownKeepsLists(ws4, es4, g.weights, g.edges, vrm, v, doc);
    ghost var ws5, es5 := g.weights, g.edges;
    ghost var groups;
    r, groups := ImportSecondary(g, vrm, v, doc, w0, e0);
    if r.Some? {
      return;
    }
    SecondaryKeepsLists(ws5, es5, g.weights, g.edges, vrm, v, doc);
    ghost var ws6, es6 := g.weights, g.edges;
    WriteNode(g, vrm, VrmWeight(v.exporterVersion.GetOr("")), w0, e0);
    WrittenBuilt(ws6, es6, g.weights, g.edges, vrm, v, doc);
  }

  /** The blend-shape stage keeps the Vrm node's weight and lists. */
  lemma GrownKeepsLists(ws0: seq<Weight>, es0: seq<Edge>, ws1: seq<Weight>, es1: seq<Edge>, vrm: NodeId, v: VrmJson, doc: Document)
    requires Grown(ws0, es0, ws1, es1) && vrm < |ws0| && ws0[vrm].VrmWeight?
    requires MaterialsBuilt(ws0, es0, vrm, v, doc) && BonesBuilt(ws0, es0, vrm, v, doc)
    ensures ws1[vrm] == ws0[vrm] && Targets(es1, vrm, VrmBoneGroup) == Targets(es0, vrm, VrmBoneGroup)
    ensures MaterialsBuilt(ws1, es1, vrm, v, doc) && BonesBuilt(ws1, es1, vrm, v, doc)
  {
    GrownKept(ws0, es0, ws1, es1, vrm, VrmBoneGroup);
    GrownFramed(ws0, es0, ws1, es1, vrm, VrmBoneGroup);
    MaterialsAcross(ws0, es0, ws1, es1, vrm, VrmBoneGroup, v, doc);
    BonesAcross(ws0, es0, ws1, es1, vrm, VrmBoneGroup, v, doc);
  }

  /** The secondary-animation stage keeps the other two lists built. */
  lemma SecondaryKeepsLists(ws0: seq<Weight>, es0: seq<Edge>, ws1: seq<Weight>, es1: seq<Edge>, vrm: NodeId, v: VrmJson, doc: Document)
    requires Framed(ws0, es0, ws1, es1, vrm, VrmBoneGroup) && vrm < |ws0| && ws0[vrm].VrmWeight?
    requires MaterialsBuilt(ws0, es0, vrm, v, doc) && BonesBuilt(ws0, es0, vrm, v, doc)
    ensures MaterialsBuilt(ws1, es1, vrm, v, doc) && BonesBuilt(ws1, es1, vrm, v, doc)
  {
    MaterialsAcross(ws0, es0, ws1, es1, vrm, VrmBoneGroup, v, doc);
    BonesAcross(ws0, es0, ws1, es1, vrm, VrmBoneGroup, v, doc);
  }

  /** Writing the Vrm weight last completes the Vrm node. */
  lemma WrittenBuilt(ws0: seq<Weight>, es0: seq<Edge>, ws1: seq<Weight>, es1: seq<Edge>, vrm: NodeId, v: VrmJson, doc: Document)
    requires vrm < |ws0| && ws0[vrm].VrmWeight? && ws1 == ws0[vrm := VrmWeight(v.exporterVersion.GetOr(""))] && es1 == es0
    requires MaterialsBuilt(ws0, es0, vrm, v, doc) && BonesBuilt(ws0, es0, vrm, v, doc) && GroupsBuilt(ws0, es0, vrm, v, doc)
    ensures VrmBuilt(ws1, es1, vrm, v, doc)
  {
    assert Framed(ws0, es0, ws1, es1, vrm, VrmLabel(Thumbnail));
    VrmLabelsDistinct(Thumbnail, HumanBone);
    MaterialsAcross(ws0, es0, ws1, es1, vrm, VrmLabel(Thumbnail), v, doc);
    BonesAcross(ws0, es0, ws1, es1, vrm, VrmLabel(Thumbnail), v, doc);
    GroupsAcross(ws0, es0, ws1, es1, vrm, VrmLabel(Thumbnail), v, doc);
  }

  /** The material-property and meta stages, in order, stopping at the
      first error: on success the material-property list is built; the
      human-bone and bone-group lists are untouched. */
  method ImportMaterialsAndMeta(g: PropertyGraph, vrm: NodeId, v: VrmJson, doc: Document,
                                ghost w0: seq<Weight>, ghost e0: seq<Edge>) returns (r: Option<ImportError>)
    modifies g
    requires Extends(g, w0, e0) && |w0| <= vrm < |g.weights| && DocIn(doc, |w0|) && g.weights[vrm].VrmWeight?
    requires g.Properties(vrm, VrmMaterialProperty) == []
    ensures Extends(g, w0, e0) && |old(g.weights)| <= |g.weights|
    ensures r == OrElse(MaterialsError(MaterialProperties(v), doc, 0), ThumbnailError(v.meta, |doc.textures|))
    ensures g.weights[vrm] == old(g.weights[vrm])
    ensures g.Properties(vrm, VrmLabel(HumanBone)) == old(g.Properties(vrm, VrmLabel(HumanBone)))
    ensures g.Properties(vrm, VrmBoneGroup) == old(g.Properties(vrm, VrmBoneGroup))
    ensures r.None? ==> MaterialsBuilt(g.weights, g.edges, vrm, v, doc)
  {
    ghost var mats;
    r, mats := ImportMaterialProperties(g, vrm, MaterialProperties(v), doc, w0, e0);
    if r.Some? {
      return;
    }
    assert MaterialsBuilt(g.weights, g.edges, vrm, v, doc);
    ghost var ws1, es1 := g.weights, g.edges;
    VrmLabelsDistinct(Thumbnail, HumanBone);
    r := ImportThumbnail(g, vrm, v.meta, doc, w0, e0);
    if r.Some? {
      return;
    }
    MaterialsAcross(ws1, es1, g.weights, g.edges, vrm, VrmLabel(Thumbnail), v, doc);
  }

  /** The humanoid and first-person stages, in order, stopping at the
      first error: on success the human-bone list is built; the other two
      lists stay as they were. */
  method ImportHumanoidStages(g: PropertyGraph, vrm: NodeId, v: VrmJson, doc: Document,
                              ghost w0: seq<Weight>, ghost e0: seq<Edge>) returns (r: Option<ImportError>)
    modifies g
    requires Extends(g, w0, e0) && |w0| <= vrm < |g.weights| && DocIn(doc, |w0|) && g.weights[vrm].VrmWeight?
    requires g.Properties(vrm, VrmLabel(HumanBone)) == [] && MaterialsBuilt(g.weights, g.edges, vrm, v, doc)
    ensures Extends(g, w0, e0) && |old(g.weights)| <= |g.weights|
    ensures r == OrElse(BonesError(HumanBones(v), |doc.nodes|, 0), FirstPersonError(v.firstPerson, |HumanBones(v)|))
    ensures g.weights[vrm] == old(g.weights[vrm])
    ensures g.Properties(vrm, VrmBoneGroup) == old(g.Properties(vrm, VrmBoneGroup))
    ensures r.None? ==> MaterialsBuilt(g.weights, g.edges, vrm, v, doc) && BonesBuilt(g.weights, g.edges, vrm, v, doc)
  {
    ghost var ws2, es2 := g.weights, g.edges;
    var created;
    r, created := ImportHumanBones(g, vrm, HumanBones(v), doc, w0, e0);
    if r.Some? {
      return;
    }
    assert BonesBuilt(g.weights, g.edges, vrm, v, doc);
    MaterialsAcross(ws2, es2, g.weights, g.edges, vrm, VrmLabel(HumanBone), v, doc);
    ghost var ws3, es3 := g.weights, g.edges;
    r := ImportFirstPerson(g, vrm, created, v.firstPerson, w0, e0);
    if r.Some? {
      return;
    }
    VrmLabelsDistinct(FirstPersonBone, HumanBone);
    MaterialsAcross(ws3, es3, g.weights, g.edges, vrm, VrmLabel(FirstPersonBone), v, doc);
    BonesAcross(ws3, es3, g.weights, g.edges, vrm, VrmLabel(FirstPersonBone), v, doc);
  }
}
