/** The property-edge store the VRM 0.x extension writes into
    (`crates/gltf_kun_vrm/src/vrm0/mod.rs` and its node wrappers): a graph
    of nodes, each carrying a weight, and labelled edges between them. A
    node's list property is the targets of its edges with one label, in the
    order they were added; a single-valued property is the first of them. */
module VrmGraph {
  import opened Wrappers
  import opened Bones

  type NodeId = nat

  /** `EXTENSION_NAME`. */
  const EXTENSION_NAME: string := "VRM"

  /** `VrmEdge`: the edges leaving the Vrm node. */
  datatype VrmEdge = BlendShapeGroup | FirstPersonBone | HumanBone | MeshAnnotation | Thumbnail

  /** The `#[serde(rename = ...)]` name of each variant. */
  function VrmEdgeName(e: VrmEdge): string {
    match e
    case BlendShapeGroup => "VRM/BlendShapeGroup"
    case FirstPersonBone => "VRM/FirstPersonBone"
    case HumanBone => "VRM/HumanBone"
    case MeshAnnotation => "VRM/MeshAnnotation"
    case Thumbnail => "VRM/Thumbnail"
  }

  /** `to_string()` goes through `serde_json::to_string`, so the label is
      the serde name inside JSON string quotes. */
  function JsonString(s: string): string {
    "\"" + s + "\""
  }

  /** Edge labels. `Named` labels are the JSON-quoted serde names of the
      wrappers' edge enums; `Extension` is the label under which a document
      holds an extension node. The Vrm material-property and bone-group
      lists and a material property's material are written by the importer
      through helpers whose label text is not part of this model, so they
      are labels of their own kind. */
  datatype Label =
    | Named(text: string)
    | Extension(name: string)
    | VrmMaterialProperty
    | VrmBoneGroup
    | MaterialPropertyMaterial

  function VrmLabel(e: VrmEdge): Label {
    Named(JsonString(VrmEdgeName(e)))
  }

  /** The wrappers' own edge labels (`BoneEdges`, `BindEdges`,
      `BoneGroupEdges`, `ColliderGroupEdges`, `MaterialPropertyEdges`). */
  const BONE_NODE: Label := Named(JsonString("VRM/Bone/Node"))
  const BIND_PRIMITIVE: Label := Named(JsonString("VRM/Bind/Primitive"))
  const BONE_GROUP_BONE: Label := Named(JsonString("VRM/BoneGroup/Bone"))
  const BONE_GROUP_COLLIDER_GROUP: Label := Named(JsonString("VRM/BoneGroup/ColliderGroup"))
  const COLLIDER_GROUP_NODE: Label := Named(JsonString("VRM/ColliderGroup/Node"))
  const MAIN_TEXTURE: Label := Named(JsonString("VRM/MaterialProperty/MainTexture"))
  const SHADE_TEXTURE: Label := Named(JsonString("VRM/MaterialProperty/ShadeTexture"))
  const BUMP_MAP: Label := Named(JsonString("VRM/MaterialProperty/BumpMap"))
  const SPHERE_ADD: Label := Named(JsonString("VRM/MaterialProperty/SphereAdd"))
  const EMISSION_MAP: Label := Named(JsonString("VRM/MaterialProperty/EmissionMap"))

  /** `Vec3`; a missing value is the zero vector. */
  datatype Vec3 = Vec3(x: real, y: real, z: real)

  /** `serde_vrm::vrm0::Shader`: the known shader names and any other. */
  datatype Shader = GltfShader | MToon | UnlitCutout | UnlitTexture | UnlitTransparent | UnlitTransparentZWrite
                  | OtherShader(name: string)

  /** An RGBA colour from a `[f32; 4]`. */
  datatype Rgba = Rgba(r: real, g: real, b: real, a: real)

  /** The `floatProperties` of a material property that the MToon import
      reads; a missing block is all `None`. */
  datatype FloatProperties = FloatProperties(shadeShift: Option<real>, shadeToony: Option<real>,
                                             indirectLightIntensity: Option<real>)

  /** The `vectorProperties` the MToon import reads. */
  datatype VectorProperties = VectorProperties(color: Option<Rgba>, shadeColor: Option<Rgba>)

  const NO_FLOATS: FloatProperties := FloatProperties(None, None, None)
  const NO_VECTORS: VectorProperties := VectorProperties(None, None)

  /** The weights (serialised payloads) of the nodes the importer creates.
      Fields the rest of the model never reads (meta, humanoid and
      first-person settings, keyword and tag maps, collider shapes) are
      left out. `GltfDocument` is the weight of the glTF document node and
      `GltfOther` that of any other glTF node. */
  datatype Weight =
    | GltfDocument
    | GltfOther
    | VrmWeight(exporterVersion: string)
    | BoneWeight(boneName: Option<BoneName>, useDefaultValues: Option<bool>)
    | MaterialPropertyWeight(materialName: Option<string>, shader: Option<Shader>, renderQueue: Option<int>,
                             float: FloatProperties, vector: VectorProperties)
    | BindWeight(weight: Option<real>)
    | BlendShapeGroupWeight(groupName: Option<string>, presetName: Option<string>, isBinary: Option<bool>)
    | ColliderGroupWeight(colliders: nat)
    | BoneGroupWeight(center: Option<real>, comment: Option<string>, stiffiness: Option<real>,
                      dragForce: Option<real>, hitRadius: Option<real>, gravityDir: Vec3,
                      gravityPower: Option<real>)

  datatype Edge = Edge(source: NodeId, tag: Label, target: NodeId)

  predicate Matches(e: Edge, src: NodeId, tag: Label) {
    e.source == src && e.tag == tag
  }

  /** `find_properties(src, tag)`: the targets of the edges leaving `src`
      with `tag`, oldest edge first. */
  function Targets(es: seq<Edge>, src: NodeId, tag: Label): (ts: seq<NodeId>)
    ensures |ts| <= |es|
  {
    if |es| == 0 then []
    else (if Matches(es[0], src, tag) then [es[0].target] else []) + Targets(es[1..], src, tag)
  }

  /** `find_property(src, tag)`: the target of the oldest such edge. */
  function FindProperty(es: seq<Edge>, src: NodeId, tag: Label): Option<NodeId> {
    if |es| == 0 then None
    else if Matches(es[0], src, tag) then Some(es[0].target)
    else FindProperty(es[1..], src, tag)
  }

  /** `remove_property(src, tag, t)`: drops every edge from `src` to `t`
      with `tag`, keeping the others in order. */
  function Without(es: seq<Edge>, src: NodeId, tag: Label, t: NodeId): seq<Edge> {
    if |es| == 0 then []
    else (if es[0] == Edge(src, tag, t) then [] else [es[0]]) + Without(es[1..], src, tag, t)
  }

  /** The edges left once every `tag` edge from `src` is dropped (the
      first half of `set_property`). */
  function Cleared(es: seq<Edge>, src: NodeId, tag: Label): seq<Edge> {
    if |es| == 0 then []
    else (if Matches(es[0], src, tag) then [] else [es[0]]) + Cleared(es[1..], src, tag)
  }

  /** The list with every occurrence of `t` removed. */
  function RemoveAll(xs: seq<NodeId>, t: NodeId): seq<NodeId> {
    if |xs| == 0 then []
    else (if xs[0] == t then [] else [xs[0]]) + RemoveAll(xs[1..], t)
  }

  /** The single-valued getter is the head of the list getter. */
  lemma {:induction false} FindPropertyIsFirstTarget(es: seq<Edge>, src: NodeId, tag: Label)
    ensures FindProperty(es, src, tag) ==
            (if Targets(es, src, tag) == [] then None else Some(Targets(es, src, tag)[0]))
  {
    if |es| > 0 && !Matches(es[0], src, tag) {
      FindPropertyIsFirstTarget(es[1..], src, tag);
    }
  }

  /** Listing the edges of a concatenation lists each part in turn. */
  lemma {:induction false} TargetsAppend(a: seq<Edge>, b: seq<Edge>, src: NodeId, tag: Label)
    ensures Targets(a + b, src, tag) == Targets(a, src, tag) + Targets(b, src, tag)
  {
    if |a| > 0 {
      var h := if Matches(a[0], src, tag) then [a[0].target] else [];
      assert (a + b)[0] == a[0];
      assert (a + b)[1..] == a[1..] + b;
      assert Targets(a + b, src, tag) == h + Targets(a[1..] + b, src, tag);
      TargetsAppend(a[1..], b, src, tag);
      JoinTargets(h, Targets(a[1..], src, tag), Targets(b, src, tag), Targets(a, src, tag), Targets(a + b, src, tag));
    } else {
      assert a + b == b;
    }
  }

  lemma JoinTargets(h: seq<NodeId>, rest: seq<NodeId>, tb: seq<NodeId>, ta: seq<NodeId>, tab: seq<NodeId>)
    requires ta == h + rest && tab == h + (rest + tb)
    ensures tab == ta + tb
  {
  }

  /** `add_property`: the new target goes at the end of its own list, and
      every other (source, label) list is unchanged. */
  lemma AddedLast(es: seq<Edge>, src: NodeId, tag: Label, t: NodeId, s: NodeId, l: Label)
    ensures Targets(es + [Edge(src, tag, t)], s, l) ==
            Targets(es, s, l) + (if s == src && l == tag then [t] else [])
  {
    TargetsAppend(es, [Edge(src, tag, t)], s, l);
  }

  /** `remove_property`: the target leaves its own list, the rest of that
      list keeps its order, and every other list is unchanged. */
  lemma {:induction false} RemovedInOrder(es: seq<Edge>, src: NodeId, tag: Label, t: NodeId, s: NodeId, l: Label)
    ensures Targets(Without(es, src, tag, t), s, l) ==
            if s == src && l == tag then RemoveAll(Targets(es, s, l), t) else Targets(es, s, l)
  {
    if |es| > 0 {
      var h := if es[0] == Edge(src, tag, t) then [] else [es[0]];
      assert Without(es, src, tag, t) == h + Without(es[1..], src, tag, t);
      TargetsAppend(h, Without(es[1..], src, tag, t), s, l);
      RemovedInOrder(es[1..], src, tag, t, s, l);
      var x := if Matches(es[0], s, l) then [es[0].target] else [];
      assert Targets(es, s, l) == x + Targets(es[1..], s, l);
      assert Targets(h, s, l) == if h == [] then [] else x;
      if s == src && l == tag {
        RemoveAllAppend(x, Targets(es[1..], s, l), t);
        if x != [] {
          assert RemoveAll(x, t) == (if es[0].target == t then [] else x) + RemoveAll(x[1..], t);
          assert x[1..] == [];
        }
      }
    }
  }

  /** The first half of `set_property` empties that one list and no other. */
  lemma {:induction false} ClearedTargets(es: seq<Edge>, src: NodeId, tag: Label, s: NodeId, l: Label)
    ensures Targets(Cleared(es, src, tag), s, l) ==
            if s == src && l == tag then [] else Targets(es, s, l)
  {
    if |es| > 0 {
      var h := if Matches(es[0], src, tag) then [] else [es[0]];
      assert Cleared(es, src, tag) == h + Cleared(es[1..], src, tag);
      TargetsAppend(h, Cleared(es[1..], src, tag), s, l);
      ClearedTargets(es[1..], src, tag, s, l);
    }
  }

  /** The result of `set_property(src, tag, t)`. */
  function SetEdges(es: seq<Edge>, src: NodeId, tag: Label, t: Option<NodeId>): seq<Edge> {
    Cleared(es, src, tag) + (if t.Some? then [Edge(src, tag, t.value)] else [])
  }

  /** Setting a single-valued property and reading it back gives what was
      set, `Some` or `None`; every other property is unchanged. */
  lemma SetThenFind(es: seq<Edge>, src: NodeId, tag: Label, t: Option<NodeId>, s: NodeId, l: Label)
    ensures FindProperty(SetEdges(es, src, tag, t), src, tag) == t
    ensures !(s == src && l == tag) ==>
              FindProperty(SetEdges(es, src, tag, t), s, l) == FindProperty(es, s, l)
  {
    var extra := if t.Some? then [Edge(src, tag, t.value)] else [];
    TargetsAppend(Cleared(es, src, tag), extra, src, tag);
    ClearedTargets(es, src, tag, src, tag);
    FindPropertyIsFirstTarget(SetEdges(es, src, tag, t), src, tag);
    TargetsAppend(Cleared(es, src, tag), extra, s, l);
    ClearedTargets(es, src, tag, s, l);
    FindPropertyIsFirstTarget(SetEdges(es, src, tag, t), s, l);
    FindPropertyIsFirstTarget(es, s, l);
  }

  /** A node no edge leaves has every list empty. */
  lemma {:induction false} NoEdgesNoTargets(es: seq<Edge>, src: NodeId, tag: Label)
    requires forall k :: 0 <= k < |es| ==> es[k].source != src
    ensures Targets(es, src, tag) == []
  {
    if |es| > 0 {
      NoEdgesNoTargets(es[1..], src, tag);
    }
  }

  /** The `VrmEdge` labels are pairwise distinct, so an operation on one
      kind of Vrm edge never touches another kind. */
  lemma VrmLabelsDistinct(e1: VrmEdge, e2: VrmEdge)
    ensures VrmLabel(e1) == VrmLabel(e2) <==> e1 == e2
  {
    if e1 != e2 {
      assert VrmEdgeName(e1)[4] != VrmEdgeName(e2)[4] || |VrmEdgeName(e1)| != |VrmEdgeName(e2)|;
      assert JsonString(VrmEdgeName(e1))[5] == VrmEdgeName(e1)[4];
      assert JsonString(VrmEdgeName(e2))[5] == VrmEdgeName(e2)[4];
    }
  }

  /** The Vrm edges holding lists; the other two hold one value. */
  predicate IsListEdge(e: VrmEdge) {
    e == BlendShapeGroup || e == HumanBone || e == MeshAnnotation
  }

  /** The graph the importer and the loaders share. */
  class PropertyGraph {
    var weights: seq<Weight>
    var edges: seq<Edge>

    /** Every edge joins two existing nodes. */
    ghost predicate Valid()
      reads this
    {
      forall k :: 0 <= k < |edges| ==> edges[k].source < |weights| && edges[k].target < |weights|
    }

    /** `Graph::new()`. */
    constructor ()
      ensures weights == [] && edges == [] && Valid()
    {
      weights := [];
      edges := [];
    }

    /** `graph.add_node(weight)`: a fresh node, with no edges. */
    method AddNode(w: Weight) returns (n: NodeId)
      modifies this
      requires Valid()
      ensures Valid()
      ensures n == |old(weights)| && weights == old(weights) + [w] && edges == old(edges)
      ensures forall l: Label :: Properties(n, l) == []
    {
      n := |weights|;
      weights := weights + [w];
      forall l: Label
        ensures Targets(edges, n, l) == []
      {
        NoEdgesNoTargets(edges, n, l);
      }
    }

    /** `write(weight)`: replaces one node's weight. */
    method Write(n: NodeId, w: Weight)
      modifies this
      requires Valid() && n < |weights|
      ensures Valid()
      ensures weights == old(weights)[n := w] && edges == old(edges)
    {
      weights := weights[n := w];
    }

    function Properties(src: NodeId, tag: Label): seq<NodeId>
      reads this
    {
      Targets(edges, src, tag)
    }

    function Property(src: NodeId, tag: Label): Option<NodeId>
      reads this
    {
      FindProperty(edges, src, tag)
    }

    /** `add_property`: appends one edge; the target ends its list. */
    method AddProperty(src: NodeId, tag: Label, t: NodeId)
      modifies this
      requires Valid() && src < |weights| && t < |weights|
      ensures Valid()
      ensures weights == old(weights) && edges == old(edges) + [Edge(src, tag, t)]
      ensures Properties(src, tag) == old(Properties(src, tag)) + [t]
    {
      edges := edges + [Edge(src, tag, t)];
      AddedLast(old(edges), src, tag, t, src, tag);
    }

    /** `remove_property`: drops the edges from `src` to `t` with `tag`. */
    method RemoveProperty(src: NodeId, tag: Label, t: NodeId)
      modifies this
      requires Valid()
      ensures Valid()
      ensures weights == old(weights) && edges == Without(old(edges), src, tag, t)
      ensures Properties(src, tag) == RemoveAll(old(Properties(src, tag)), t)
    {
      WithoutKeepsEdges(edges, src, tag, t);
      edges := Without(edges, src, tag, t);
      RemovedInOrder(old(edges), src, tag, t, src, tag);
    }

    /** `set_property`: drops every `tag` edge of `src`, then adds one to
        `t` when `t` is `Some`. */
    method SetProperty(src: NodeId, tag: Label, t: Option<NodeId>)
      modifies this
      requires Valid() && src < |weights| && (t.Some? ==> t.value < |weights|)
      ensures Valid()
      ensures weights == old(weights) && edges == SetEdges(old(edges), src, tag, t)
      ensures Property(src, tag) == t
    {
      ClearedKeepsEdges(edges, src, tag);
      edges := SetEdges(edges, src, tag, t);
      SetThenFind(old(edges), src, tag, t, src, tag);
    }
  }

  /** Every edge `Without` keeps was there before. */
  lemma {:induction false} WithoutKeepsEdges(es: seq<Edge>, src: NodeId, tag: Label, t: NodeId)
    ensures forall k :: 0 <= k < |Without(es, src, tag, t)| ==> Without(es, src, tag, t)[k] in es
  {
    if |es| > 0 {
      WithoutKeepsEdges(es[1..], src, tag, t);
    }
  }

  /** Every edge `Cleared` keeps was there before. */
  lemma {:induction false} ClearedKeepsEdges(es: seq<Edge>, src: NodeId, tag: Label)
    ensures forall k :: 0 <= k < |Cleared(es, src, tag)| ==> Cleared(es, src, tag)[k] in es
  {
    if |es| > 0 {
      ClearedKeepsEdges(es[1..], src, tag);
    }
  }

  /** `Vrm::new`: a fresh Vrm node with the default weight. */
  method NewVrm(g: PropertyGraph) returns (vrm: NodeId)
    modifies g
    requires g.Valid()
    ensures g.Valid()
    ensures vrm == |old(g.weights)| && g.weights == old(g.weights) + [VrmWeight("")]
    ensures g.edges == old(g.edges)
    ensures forall l: Label :: g.Properties(vrm, l) == []
  {
    vrm := g.AddNode(VrmWeight(""));
  }

  /** `blend_shape_groups`, `human_bones`, `mesh_annotations`. */
  function VrmList(g: PropertyGraph, vrm: NodeId, e: VrmEdge): seq<NodeId>
    reads g
    requires IsListEdge(e)
  {
    g.Properties(vrm, VrmLabel(e))
  }

  /** `add_blend_shape_group`, `add_human_bone`, `add_mesh_annotation`:
      the item is appended to its own list; the other Vrm edges are kept. */
  method AddVrmItem(g: PropertyGraph, vrm: NodeId, e: VrmEdge, item: NodeId)
    modifies g
    requires IsListEdge(e) && g.Valid() && vrm < |g.weights| && item < |g.weights|
    ensures g.Valid() && g.weights == old(g.weights)
    ensures VrmList(g, vrm, e) == old(VrmList(g, vrm, e)) + [item]
    ensures forall e2: VrmEdge :: e2 != e ==> g.Properties(vrm, VrmLabel(e2)) == old(g.Properties(vrm, VrmLabel(e2)))
  {
    g.AddProperty(vrm, VrmLabel(e), item);
    forall e2: VrmEdge | e2 != e
      ensures g.Properties(vrm, VrmLabel(e2)) == old(g.Properties(vrm, VrmLabel(e2)))
    {
      VrmLabelsDistinct(e, e2);
      AddedLast(old(g.edges), vrm, VrmLabel(e), item, vrm, VrmLabel(e2));
    }
  }

  /** `remove_blend_shape_group`, `remove_human_bone`,
      `remove_mesh_annotation`: the item leaves its list, the rest keep
      their order; the other Vrm edges are kept. */
  method RemoveVrmItem(g: PropertyGraph, vrm: NodeId, e: VrmEdge, item: NodeId)
    modifies g
    requires IsListEdge(e) && g.Valid()
    ensures g.Valid() && g.weights == old(g.weights)
    ensures VrmList(g, vrm, e) == RemoveAll(old(VrmList(g, vrm, e)), item)
    ensures forall e2: VrmEdge :: e2 != e ==> g.Properties(vrm, VrmLabel(e2)) == old(g.Properties(vrm, VrmLabel(e2)))
  {
    g.RemoveProperty(vrm, VrmLabel(e), item);
    forall e2: VrmEdge | e2 != e
      ensures g.Properties(vrm, VrmLabel(e2)) == old(g.Properties(vrm, VrmLabel(e2)))
    {
      VrmLabelsDistinct(e, e2);
      RemovedInOrder(old(g.edges), vrm, VrmLabel(e), item, vrm, VrmLabel(e2));
    }
  }

  /** `first_person_bone`, `thumbnail`. */
  function VrmSingle(g: PropertyGraph, vrm: NodeId, e: VrmEdge): Option<NodeId>
    reads g
    requires !IsListEdge(e)
  {
    g.Property(vrm, VrmLabel(e))
  }

  /** `set_first_person_bone`, `set_thumbnail`: the getter then returns
      what was set; the other Vrm edges are kept. */
  method SetVrmSingle(g: PropertyGraph, vrm: NodeId, e: VrmEdge, t: Option<NodeId>)
    modifies g
    requires !IsListEdge(e) && g.Valid() && vrm < |g.weights| && (t.Some? ==> t.value < |g.weights|)
    ensures g.Valid() && g.weights == old(g.weights)
    ensures VrmSingle(g, vrm, e) == t
    ensures forall e2: VrmEdge :: e2 != e ==> g.Properties(vrm, VrmLabel(e2)) == old(g.Properties(vrm, VrmLabel(e2)))
  {
    g.SetProperty(vrm, VrmLabel(e), t);
    forall e2: VrmEdge | e2 != e
      ensures g.Properties(vrm, VrmLabel(e2)) == old(g.Properties(vrm, VrmLabel(e2)))
    {
      VrmLabelsDistinct(e, e2);
      var extra := if t.Some? then [Edge(vrm, VrmLabel(e), t.value)] else [];
      TargetsAppend(Cleared(old(g.edges), vrm, VrmLabel(e)), extra, vrm, VrmLabel(e2));
      ClearedTargets(old(g.edges), vrm, VrmLabel(e), vrm, VrmLabel(e2));
    }
  }

  /** The list tests: on a new Vrm node, adding `a` then `b` lists `[a, b]`,
      and removing `a` then lists `[b]`. */
  lemma ListScenario(es: seq<Edge>, vrm: NodeId, e: VrmEdge, a: NodeId, b: NodeId)
    requires forall k :: 0 <= k < |es| ==> es[k].source != vrm
    requires a != b
    ensures Targets(es + [Edge(vrm, VrmLabel(e), a)], vrm, VrmLabel(e)) == [a]
    ensures Targets(es + [Edge(vrm, VrmLabel(e), a)] + [Edge(vrm, VrmLabel(e), b)], vrm, VrmLabel(e)) == [a, b]
    ensures Targets(Without(es + [Edge(vrm, VrmLabel(e), a)] + [Edge(vrm, VrmLabel(e), b)], vrm, VrmLabel(e), a),
                    vrm, VrmLabel(e)) == [b]
  {
    var l := VrmLabel(e);
    var one := es + [Edge(vrm, l, a)];
    var two := one + [Edge(vrm, l, b)];
    NoEdgesNoTargets(es, vrm, l);
    AddedLast(es, vrm, l, a, vrm, l);
    AddedLast(one, vrm, l, b, vrm, l);
    RemovedInOrder(two, vrm, l, a, vrm, l);
    RemoveAllPair(a, b);
    JoinScenario(Targets(es, vrm, l), Targets(one, vrm, l), Targets(two, vrm, l),
                 Targets(Without(two, vrm, l, a), vrm, l), a, b);
  }

  /** The lists of the scenario, step by step. */
  lemma JoinScenario(t0: seq<NodeId>, t1: seq<NodeId>, t2: seq<NodeId>, t3: seq<NodeId>, a: NodeId, b: NodeId)
    requires t0 == [] && t1 == t0 + [a] && t2 == t1 + [b] && t3 == RemoveAll(t2, a)
    requires RemoveAll([a, b], a) == [b]
    ensures t1 == [a] && t2 == [a, b] && t3 == [b]
  {
  }

  lemma RemoveAllPair(a: NodeId, b: NodeId)
    requires a != b
    ensures RemoveAll([a, b], a) == [b]
  {
    assert [a, b][1..] == [b];
    assert [b][1..] == [];
    assert RemoveAll([b], a) == [b] + RemoveAll([], a);
  }

  /** Removing from a concatenation removes from each part. */
  lemma {:induction false} RemoveAllAppend(xs: seq<NodeId>, ys: seq<NodeId>, t: NodeId)
    ensures RemoveAll(xs + ys, t) == RemoveAll(xs, t) + RemoveAll(ys, t)
  {
    if |xs| > 0 {
      assert (xs + ys)[1..] == xs[1..] + ys;
      RemoveAllAppend(xs[1..], ys, t);
    } else {
      assert xs + ys == ys;
    }
  }
}
