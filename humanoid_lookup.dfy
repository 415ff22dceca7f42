/** The lookup chain shared by the three humanoid-bone passes
    (`crates/bevy_vrm/src/loader/humanoid_bones.rs`,
    `crates/bevy_vrm/src/humanoid_bones.rs` and `import_scene` in
    `crates/bevy_vrm/src/extensions/mod.rs`): from the property graph to
    the document node, its Vrm extension and the human-bone nodes, then
    from one bone to its glTF node, its name, the node's asset handle, the
    node's name and a scene entity. Each step that finds nothing skips the
    bone. Hash maps filled by `insert` are modelled by `Assign`. */
module HumanoidLookup {
  import opened Wrappers
  import opened Bones
  import opened VrmGraph

  /** `Handle<GltfNode>`. */
  type Handle = nat
  /** A Bevy `Entity`. */
  type Entity = nat

  /** The loaded glTF: its property graph, the graph-node -> node-handle
      map, and the `named_nodes` pairs in iteration order. */
  datatype GltfKun = GltfKun(graph: PropertyGraph, nodeHandles: map<NodeId, Handle>, namedNodes: seq<(string, Handle)>)

  /** `graph.node_indices().find(..)`: the lowest-numbered node whose
      weight is the glTF document. */
  function FirstDocument(ws: seq<Weight>): (r: Option<NodeId>)
    ensures r.Some? ==> r.value < |ws| && ws[r.value].GltfDocument?
    ensures r.Some? ==> forall k :: 0 <= k < r.value ==> !ws[k].GltfDocument?
    ensures r.None? ==> forall k :: 0 <= k < |ws| ==> !ws[k].GltfDocument?
  {
    if |ws| == 0 then None
    else if ws[0].GltfDocument? then Some(0)
    else match FirstDocument(ws[1..])
      case None => None
      case Some(k) => Some(k + 1)
  }

  /** `doc.get_extension::<Vrm>(graph)` on the document found first: the
      node the document's `"VRM"` extension edge points to. */
  function VrmNode(g: PropertyGraph): Option<NodeId>
    reads g
  {
    var doc := FirstDocument(g.weights);
    if doc.None? then None else g.Property(doc.value, Extension(EXTENSION_NAME))
  }

  /** `ext.human_bones(graph)`. */
  function HumanBoneNodes(g: PropertyGraph, vrm: NodeId): seq<NodeId>
    reads g
  {
    g.Properties(vrm, VrmLabel(HumanBone))
  }

  /** `bone.read(graph).name`: the name stored in the bone's weight; a node
      with any other weight reads as the default, which has no name. */
  function BoneNameOf(g: PropertyGraph, bone: NodeId): Option<BoneName>
    reads g
  {
    if bone < |g.weights| && g.weights[bone].BoneWeight? then g.weights[bone].boneName else None
  }

  /** The first three links: the bone's glTF node, its name, and the
      node's handle. */
  function BoneHandle(k: GltfKun, bone: NodeId): Option<(BoneName, Handle)>
    reads k.graph
  {
    var node := k.graph.Property(bone, BONE_NODE);
    var name := BoneNameOf(k.graph, bone);
    if node.None? || name.None? || node.value !in k.nodeHandles then None
    else Some((name.value, k.nodeHandles[node.value]))
  }

  /** `iter().find_map(..)` over pairs: the first component of the first
      pair whose second component is `key`. */
  function FirstWithKey<A, B(==)>(ps: seq<(A, B)>, key: B): (r: Option<A>)
    ensures r.None? <==> forall i :: 0 <= i < |ps| ==> ps[i].1 != key
    ensures r.Some? ==> exists i :: 0 <= i < |ps| && ps[i].1 == key && ps[i].0 == r.value &&
                                    forall j :: 0 <= j < i ==> ps[j].1 != key
  {
    if |ps| == 0 then None
    else if ps[0].1 == key then Some(ps[0].0)
    else
      var r := FirstWithKey(ps[1..], key);
      assert forall i :: 1 <= i < |ps| ==> ps[i] == ps[1..][i - 1];
      r
  }

  /** The whole chain: a bone resolves to its name and the first entity
      carrying the name of the bone's glTF node. */
  function BoneEntity(k: GltfKun, names: seq<(Entity, string)>, bone: NodeId): Option<(BoneName, Entity)>
    reads k.graph
  {
    match BoneHandle(k, bone)
    case None => None
    case Some((n, h)) =>
      match FirstWithKey(k.namedNodes, h)
      case None => None
      case Some(nodeName) =>
        match FirstWithKey(names, nodeName)
        case None => None
        case Some(e) => Some((n, e))
  }

  // ---------------------------------------------------------------------
  // Maps filled by `insert`.

  predicate Writes<K(==), V>(e: Option<(K, V)>, key: K) {
    e.Some? && e.value.0 == key
  }

  function Put<K, V>(m: map<K, V>, e: Option<(K, V)>): map<K, V> {
    if e.Some? then m[e.value.0 := e.value.1] else m
  }

  /** `m.insert(k, v)` for each present entry, in order. */
  function Assign<K, V>(m: map<K, V>, es: seq<Option<(K, V)>>): map<K, V> {
    if |es| == 0 then m else Put(Assign(m, es[..|es| - 1]), es[|es| - 1])
  }

  lemma AssignAppend<K, V>(m: map<K, V>, es: seq<Option<(K, V)>>, e: Option<(K, V)>)
    ensures Assign(m, es + [e]) == Put(Assign(m, es), e)
  {
    assert (es + [e])[..|es|] == es;
  }

  /** One more entry extends the insertions by one `Put`. */
  lemma AssignStep<K, V>(m: map<K, V>, before: map<K, V>, after: map<K, V>, es: seq<Option<(K, V)>>,
                         es1: seq<Option<(K, V)>>, e: Option<(K, V)>)
    requires before == Assign(m, es) && es1 == es + [e]
    requires after == Put(before, e)
    ensures after == Assign(m, es1)
  {
    AssignAppend(m, es, e);
  }

  /** Last writer wins: a key is present iff it was before or some entry
      writes it; then it holds the value of the last entry writing it, and
      keys no entry writes keep their old value. */
  lemma {:induction false} AssignSpec<K, V>(m: map<K, V>, es: seq<Option<(K, V)>>, key: K)
    ensures key in Assign(m, es) <==> key in m || exists i :: 0 <= i < |es| && Writes(es[i], key)
    ensures key in m && (forall i :: 0 <= i < |es| ==> !Writes(es[i], key)) ==> Assign(m, es)[key] == m[key]
    ensures forall i :: 0 <= i < |es| && Writes(es[i], key) && (forall j :: i < j < |es| ==> !Writes(es[j], key)) ==>
              Assign(m, es)[key] == es[i].value.1
  {
    if |es| > 0 {
      var p := es[..|es| - 1];
      var last := es[|es| - 1];
      AssignSpec(m, p, key);
      assert forall i :: 0 <= i < |p| ==> p[i] == es[i];
      if !Writes(last, key) {
        assert Assign(m, es) == Put(Assign(m, p), last);
        assert key in Assign(m, es) <==> key in Assign(m, p);
      }
    }
  }
}
