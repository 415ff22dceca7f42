/** The `VrmExtensions` hooks of `crates/bevy_vrm/src/extensions/mod.rs`:
    the glTF-level import of the VRM extension, the per-material and
    per-primitive hooks that act only when the document carries a Vrm
    extension, and `import_scene`, which tags the scene entity of every
    human bone with its bone name. */
module Extensions {
  import opened Wrappers
  import opened Bones
  import opened VrmGraph
  import opened VrmImportSpec
  import VrmImport
  import opened HumanoidLookup
  import MtoonImport

  /** `ExtensionImport::import`: runs the Vrm import and passes its error
      on; on success it returns `Ok(())` like the import itself. */
  method ImportExtension(g: PropertyGraph, extensions: Option<map<string, RawVrm>>, doc: Document)
    returns (r: Result<(), ImportError>)
    modifies g
    requires g.Valid() && VrmImport.DocIn(doc, |g.weights|)
    ensures r == ExpectedResult(extensions, doc)
    ensures VrmImport.Extends(g, old(g.weights), old(g.edges))
  {
    r := VrmImport.Import(g, extensions, doc);
  }

  /** `context.doc.get_extension::<Vrm>(context.graph)`. */
  function DocExtension(g: PropertyGraph, docNode: NodeId): Option<NodeId>
    reads g
  {
    g.Property(docNode, Extension(EXTENSION_NAME))
  }

  /** `import_material`: with a Vrm extension on the document, the vrm0
      material import runs on it; otherwise nothing happens. */
  method ImportMaterialHook(g: PropertyGraph, docNode: NodeId, textures: seq<NodeId>, ctx: MtoonImport.LoadContext,
                            standard: MtoonImport.StandardMaterial, material: NodeId)
    modifies ctx
    requires DocExtension(g, docNode).Some? ==>
               var props := MtoonImport.MaterialPropertyNodes(g, DocExtension(g, docNode).value);
               forall k :: 0 <= k < |props| ==> MtoonImport.TexturesIndexed(g, textures, props[k])
    ensures DocExtension(g, docNode).None? ==> ctx.labeled == old(ctx.labeled)
    ensures DocExtension(g, docNode).Some? ==>
              var props := MtoonImport.MaterialPropertyNodes(g, DocExtension(g, docNode).value);
              ctx.labeled == MtoonImport.AddAbsent(old(ctx.labeled),
                                                   MtoonImport.Requests(g, textures, standard, material, props, |props|))
  {
    var ext := g.Property(docNode, Extension(EXTENSION_NAME));
    if ext.Some? {
      MtoonImport.ImportMaterial(g, textures, ext.value, ctx, standard, material);
    }
  }

  /** `import_primitive`: with a Vrm extension on the document, the vrm0
      primitive-material swap runs on it; otherwise nothing happens. */
  method ImportPrimitiveHook(g: PropertyGraph, docNode: NodeId, ctx: MtoonImport.LoadContext,
                             e: MtoonImport.PrimitiveEntity, primitiveMaterial: Option<NodeId>)
    modifies e
    ensures DocExtension(g, docNode).None? || primitiveMaterial.None? ==>
              e.material == old(e.material) && e.outlineSync == old(e.outlineSync)
    ensures DocExtension(g, docNode).Some? && primitiveMaterial.Some? ==>
              var props := MtoonImport.MaterialPropertyNodes(g, DocExtension(g, docNode).value);
              MtoonImport.Swapped(e.material, e.outlineSync, old(e.material), old(e.outlineSync),
                                  MtoonImport.Last(MtoonImport.Swaps(g, ctx.labeled, primitiveMaterial.value, props, |props|)))
  {
    var ext := g.Property(docNode, Extension(EXTENSION_NAME));
    if ext.Some? {
      MtoonImport.ImportPrimitiveMaterial(g, ext.value, ctx, e, primitiveMaterial);
    }
  }

  // ---------------------------------------------------------------------
  // import_scene

  /** The part of the Bevy `World` `import_scene` touches: the named
      entities (in query order) and the `BoneName` component of each entity. */
  class SceneWorld {
    const names: seq<(Entity, string)>
    var boneTags: map<Entity, BoneName>

    constructor (names: seq<(Entity, string)>)
      ensures this.names == names && boneTags == map[]
    {
      this.names := names;
      boneTags := map[];
    }
  }

  /** The `(entity, bone name)` insertion a bone makes, if it resolves. */
  function TagFor(k: GltfKun, names: seq<(Entity, string)>, bone: NodeId): Option<(Entity, BoneName)>
    reads k.graph
  {
    match BoneEntity(k, names, bone)
    case None => None
    case Some((n, e)) => Some((e, n))
  }

  function TagEntries(k: GltfKun, names: seq<(Entity, string)>, bones: seq<NodeId>): (es: seq<Option<(Entity, BoneName)>>)
    reads k.graph
    ensures |es| == |bones|
  {
    if |bones| == 0 then []
    else TagEntries(k, names, bones[..|bones| - 1]) + [TagFor(k, names, bones[|bones| - 1])]
  }

  /** Each human bone contributes its own insertion, in order. */
  lemma {:induction false} TagEntriesAt(k: GltfKun, names: seq<(Entity, string)>, bones: seq<NodeId>)
    ensures forall i :: 0 <= i < |bones| ==> TagEntries(k, names, bones)[i] == TagFor(k, names, bones[i])
  {
    if |bones| > 0 {
      TagEntriesAt(k, names, bones[..|bones| - 1]);
    }
  }

  /** What `import_scene` leaves in the world: nothing changes without a
      document or a Vrm extension; otherwise every resolving human bone, in
      order, inserts its name on its entity. */
  function SceneTags(k: GltfKun, names: seq<(Entity, string)>, tags: map<Entity, BoneName>): map<Entity, BoneName>
    reads k.graph
  {
    match VrmNode(k.graph)
    case None => tags
    case Some(vrm) => Assign(tags, TagEntries(k, names, HumanBoneNodes(k.graph, vrm)))
  }

  /** `import_scene`. */
  method ImportScene(k: GltfKun, w: SceneWorld)
    modifies w
    ensures w.boneTags == SceneTags(k, w.names, old(w.boneTags))
  {
    var doc := FirstDocument(k.graph.weights);
    if doc.None? {
      return;
    }
    var ext := k.graph.Property(doc.value, Extension(EXTENSION_NAME));
    if ext.None? {
      return;
    }
    var bones := HumanBoneNodes(k.graph, ext.value);
    TagBones(k, w, bones);
  }

  /** The loop of `import_scene`: each bone, in order, tags the entity it
      resolves to. */
  method TagBones(k: GltfKun, w: SceneWorld, bones: seq<NodeId>)
    modifies w
    ensures w.boneTags == Assign(old(w.boneTags), TagEntries(k, w.names, bones))
  {
    ghost var tags0 := w.boneTags;
    var i := 0;
    while i < |bones|
      invariant 0 <= i <= |bones|
      invariant w.boneTags == TagsUpTo(k, w.names, bones, tags0, i)
    {
      var resolved := BoneEntity(k, w.names, bones[i]);
      if resolved.Some? {
        w.boneTags := w.boneTags[resolved.value.1 := resolved.value.0];
      }
      i := i + 1;
    }
    TagsUpToAssign(k, w.names, bones, tags0, |bones|);
    assert bones[..|bones|] == bones;
  }

  /** The tags after the first n bones of the loop. */
  ghost function TagsUpTo(k: GltfKun, names: seq<(Entity, string)>, bones: seq<NodeId>, tags0: map<Entity, BoneName>, n: nat)
    : map<Entity, BoneName>
    requires n <= |bones|
    reads k.graph
  {
    if n == 0 then tags0 else Put(TagsUpTo(k, names, bones, tags0, n - 1), TagFor(k, names, bones[n - 1]))
  }

  /** The loop's tags are the insertions of the first n bones. */
  lemma {:induction false} TagsUpToAssign(k: GltfKun, names: seq<(Entity, string)>, bones: seq<NodeId>,
                                          tags0: map<Entity, BoneName>, n: nat)
    requires n <= |bones|
    ensures TagsUpTo(k, names, bones, tags0, n) == Assign(tags0, TagEntries(k, names, bones[..n]))
  {
    if n > 0 {
      TagsUpToAssign(k, names, bones, tags0, n - 1);
      TagEntriesStep(k, names, bones, n - 1);
      AssignStep(tags0, TagsUpTo(k, names, bones, tags0, n - 1), TagsUpTo(k, names, bones, tags0, n),
                 TagEntries(k, names, bones[..n - 1]), TagEntries(k, names, bones[..n]), TagFor(k, names, bones[n - 1]));
    }
  }

  /** An entity carries a bone name afterwards iff it did before or some
      human bone resolves to it; it then carries the name of the last such
      bone, which was found through the entity's own name, and entities no
      bone resolves to keep their tag. */
  lemma SceneTagsSpec(k: GltfKun, names: seq<(Entity, string)>, tags: map<Entity, BoneName>, e: Entity)
    requires VrmNode(k.graph).Some?
    ensures var bones := HumanBoneNodes(k.graph, VrmNode(k.graph).value);
            var m := SceneTags(k, names, tags);
            (e in m <==> e in tags || exists i :: 0 <= i < |bones| && BoneEntity(k, names, bones[i]).Some? &&
                                                 BoneEntity(k, names, bones[i]).value.1 == e) &&
            (e in tags && (forall i :: 0 <= i < |bones| ==> !Writes(TagFor(k, names, bones[i]), e)) ==> m[e] == tags[e]) &&
            forall i :: 0 <= i < |bones| && Writes(TagFor(k, names, bones[i]), e) &&
                        (forall j :: i < j < |bones| ==> !Writes(TagFor(k, names, bones[j]), e)) ==>
                          m[e] == BoneEntity(k, names, bones[i]).value.0 && BoneNameOf(k.graph, bones[i]) == Some(m[e])
  {
    var bones := HumanBoneNodes(k.graph, VrmNode(k.graph).value);
    var es := TagEntries(k, names, bones);
    TagEntriesAt(k, names, bones);
    AssignSpec(tags, es, e);
    forall i | 0 <= i < |bones|
      ensures Writes(es[i], e) <==> BoneEntity(k, names, bones[i]).Some? && BoneEntity(k, names, bones[i]).value.1 == e
      ensures Writes(es[i], e) ==> es[i].value.1 == BoneEntity(k, names, bones[i]).value.0 &&
                                   BoneNameOf(k.graph, bones[i]) == Some(es[i].value.1)
    {
      TagForAt(k, names, bones[i]);
    }
  }

  /** A bone's insertion, when there is one, is on the entity the bone
      resolves to and carries the bone's own name. */
  lemma TagForAt(k: GltfKun, names: seq<(Entity, string)>, bone: NodeId)
    ensures TagFor(k, names, bone).Some? <==> BoneEntity(k, names, bone).Some?
    ensures TagFor(k, names, bone).Some? ==>
              TagFor(k, names, bone).value == (BoneEntity(k, names, bone).value.1, BoneEntity(k, names, bone).value.0) &&
              BoneNameOf(k.graph, bone) == Some(BoneEntity(k, names, bone).value.0)
  {
  }

  lemma TagEntriesStep(k: GltfKun, names: seq<(Entity, string)>, bones: seq<NodeId>, i: nat)
    requires i < |bones|
    ensures TagEntries(k, names, bones[..i + 1]) == TagEntries(k, names, bones[..i]) + [TagFor(k, names, bones[i])]
  {
    assert bones[..i + 1][..i] == bones[..i];
  }

  /** Without a document node or a Vrm extension the scene is untouched,
      and running the import twice ends where running it once did. */
  lemma SceneTagsIdempotent(k: GltfKun, names: seq<(Entity, string)>, tags: map<Entity, BoneName>)
    ensures VrmNode(k.graph).None? ==> SceneTags(k, names, tags) == tags
    ensures SceneTags(k, names, SceneTags(k, names, tags)) == SceneTags(k, names, tags)
  {
    if VrmNode(k.graph).Some? {
      var es := TagEntries(k, names, HumanBoneNodes(k.graph, VrmNode(k.graph).value));
      AssignTwice(tags, es);
    }
  }

  /** Replaying the same insertions is a no-op. */
  lemma AssignTwice<K, V>(m: map<K, V>, es: seq<Option<(K, V)>>)
    ensures Assign(Assign(m, es), es) == Assign(m, es)
  {
    var a := Assign(m, es);
    var b := Assign(a, es);
    forall key
      ensures (key in b <==> key in a) && (key in a ==> b[key] == a[key])
    {
      AssignTwiceAt(m, es, key);
    }
    SameEntries(a, b);
  }

  lemma SameEntries<K, V>(a: map<K, V>, b: map<K, V>)
    requires forall key :: (key in b <==> key in a) && (key in a ==> b[key] == a[key])
    ensures a == b
  {
  }

  lemma AssignTwiceAt<K, V>(m: map<K, V>, es: seq<Option<(K, V)>>, key: K)
    ensures key in Assign(Assign(m, es), es) <==> key in Assign(m, es)
    ensures key in Assign(m, es) ==> Assign(Assign(m, es), es)[key] == Assign(m, es)[key]
  {
    AssignSpec(m, es, key);
    AssignSpec(Assign(m, es), es, key);
    if exists i :: 0 <= i < |es| && Writes(es[i], key) {
      var i := LastWriter(es, key);
    }
  }

  /** The last entry writing `key`. */
  lemma LastWriter<K, V>(es: seq<Option<(K, V)>>, key: K) returns (i: nat)
    requires exists i :: 0 <= i < |es| && Writes(es[i], key)
    ensures i < |es| && Writes(es[i], key) && forall j :: i < j < |es| ==> !Writes(es[j], key)
  {
    i := |es| - 1;
    while !Writes(es[i], key)
      invariant 0 <= i < |es| && forall j :: i < j < |es| ==> !Writes(es[j], key)
      invariant exists j :: 0 <= j <= i && Writes(es[j], key)
      decreases i
    {
      i := i - 1;
    }
  }
}
