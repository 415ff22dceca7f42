# bevy_vrm core, modelled in Dafny

This project models the deterministic core of bevy_vrm. bevy_vrm loads VRM avatars into the Bevy engine. A VRM file is a glTF 2.0 file that carries a `"VRM"` extension.

The model covers the following parts:

- **First-person mesh splitting.** Three pieces are modelled:
  - the in-place removal of every triangle that touches a head-skinned vertex (`clean_indices`);
  - the ancestor walk (`is_child`);
  - the vertex-marking loop, the joint insertion and the flag-to-render-layer table.
- **VRM 0.x extension import.** The `"VRM"` JSON is turned into records of the gltf_kun property graph. Every material, texture, node, human-bone and collider-group index is checked against an earlier list. The `Vrm` node's list edges and optional edges are modelled too.
- **Bone-name resolution.** Four passes bind humanoid bones to nodes and entities:
  - the loader's humanoid table;
  - the one-shot `set_humanoid_bones` system;
  - the extension's `import_scene` bone tagging;
  - `vrm_bone_hook`, which also builds the spring-bone lists.
- **Animation target paths.** Each of the 55 humanoid bones gets the chain of bone names leading to it from the hips.
- **Small decision rules:**
  - MToon material parameters and asset labels;
  - material swapping by markers;
  - outline visibility and width;
  - default-scene selection;
  - the choice between the GLB and JSON loaders, made on the 4-byte `glTF` magic (section 4.4 "Header" of the glTF 2.0 specification).

The model follows the Rust code's own form:

- **Mutable objects become classes.** The property graph, a target chain, the loader's `Vrm` asset and load context, MToon light uniforms and outline volumes are classes. Their methods state the whole new state.
- **Loops become methods.** Each loop becomes a method with invariants, proved against a specification function. Lemmas then state the specification function's properties.
- **Pure lookups become functions**, for example `find`, `find_map` and the scene choice.
- **ECS commands become returned sequences.** Commands issued to the ECS (`insert`, `remove`) are returned as a sequence of command values. A separate function applies them.
- **Panics become `None`.** An `unwrap` on a missing value, or an out-of-range `Vec::remove`, is modelled as `None` (no result).
- **Floats become `real`.**
- **Hash maps become maps.** A `HashMap` filled by `insert` in a loop becomes a map built by a left fold, so the last writer wins. Where the code checks for a label before adding, the first writer wins.

## Model

| member | source | states |
|---|---|---|
| Layers.TableIsTotal | crates/bevy_vrm/src/layers.rs:9-30 | every first-person flag has an entry in `RENDER_LAYERS`, so indexing the table never panics |
| Layers.TableEntries | crates/bevy_vrm/src/layers.rs:6-27 | Auto and Both draw on layers 7 and 8; FirstPersonOnly on 7 only; ThirdPersonOnly on 8 only |
| Layers.TablePartition | crates/bevy_vrm/src/layers.rs:12-27 | the two single-perspective layer sets are disjoint and together make up the Auto set; no entry enables layer 0 |
| FirstPerson.RemoveAt | crates/bevy_vrm/src/first_person.rs:221-223 | `Vec::remove` drops exactly one element |
| FirstPerson.TouchedChunks | crates/bevy_vrm/src/first_person.rs:208-217 | lists, in increasing order, exactly the triangles (chunks of three indices) with a corner in the vertex list |
| FirstPerson.CleanIndices | crates/bevy_vrm/src/first_person.rs:206-225 | panics exactly when a touched triangle is the short trailing chunk; otherwise the result is the buffer with every touched triangle removed and every other triangle kept in order |
| FirstPerson.RemovalInvariant | crates/bevy_vrm/src/first_person.rs:219-224 | each back-to-front removal of three indices keeps the not-yet-processed prefix and the cleaned suffix apart |
| FirstPerson.CleanFinish | crates/bevy_vrm/src/first_person.rs:219-224 | once every listed triangle is removed, the buffer holds exactly the untouched triangles |
| FirstPerson.TouchedTailPanics | crates/bevy_vrm/src/first_person.rs:219-223 | a listed chunk with fewer than three indices left makes the removal run off the end |
| FirstPerson.UntouchedTail | crates/bevy_vrm/src/first_person.rs:219-223 | when every listed chunk has its three indices, the short trailing chunk was not touched |
| FirstPerson.IsChildIffAncestor | crates/bevy_vrm/src/first_person.rs:227-241 | `is_child(x, t)` holds exactly when t is x or one of its ancestors along the `Parent` links |
| FirstPerson.IsChildTransitive | crates/bevy_vrm/src/first_person.rs:227-241 | a descendant of a descendant of t is a descendant of t |
| FirstPerson.DescendingSpec | crates/bevy_vrm/src/first_person.rs:126-127 | the sorted removal list holds exactly the collected vertices, in strictly decreasing order |
| FirstPerson.CollectHeadVertices | crates/bevy_vrm/src/first_person.rs:109-124 | a vertex is collected exactly when one of its joint slots is the head or below it and carries a positive weight |
| FirstPerson.SortDescending | crates/bevy_vrm/src/first_person.rs:126-127 | the collected set becomes a list sorted from the highest vertex down |
| FirstPerson.MarkHeadVertices | crates/bevy_vrm/src/first_person.rs:109-127 | the removal list is the head-weighted vertex set in decreasing order |
| FirstPerson.KeptLength | crates/bevy_vrm/src/first_person.rs:206-225 | a buffer of whole triangles shrinks by three indices per touched triangle |
| FirstPerson.KeptAvoids | crates/bevy_vrm/src/first_person.rs:206-225 | no surviving index names a listed vertex |
| FirstPerson.KeptUntouched | crates/bevy_vrm/src/first_person.rs:206-225 | a buffer that names no listed vertex is left as it is |
| FirstPerson.KeptIdempotent | crates/bevy_vrm/src/first_person.rs:206-225 | cleaning a second time with the same list changes nothing |
| FirstPerson.InsertedBeforeAbsent | crates/bevy_vrm/src/first_person.rs:168-173 | when the mesh entity is not a joint, the joint list is unchanged |
| FirstPerson.InsertedBeforeFirst | crates/bevy_vrm/src/first_person.rs:168-173 | otherwise the new entity lands just before the first occurrence of the mesh entity and nothing else moves |
| FirstPerson.InsertJoint | crates/bevy_vrm/src/first_person.rs:168-173 | the joint loop computes that insertion |
| FirstPerson.SetupMesh | crates/bevy_vrm/src/first_person.rs:78-185 | one flagged mesh: an Auto mesh missing joints, weights or skin is skipped, an Auto mesh with them is split, any other flag is layered; a panic in `clean_indices` is None |
| FirstPerson.OutcomeLayers | crates/bevy_vrm/src/first_person.rs:143-149 | a split mesh ends on the third-person layer only and its child on the first-person layer only; other flags get their own table entry; an Auto mesh never keeps the Auto entry |
| FirstPerson.SplitChildAvoidsHead | crates/bevy_vrm/src/first_person.rs:109-175 | the first-person copy keeps no index of a head vertex, and its skin has the copy inserted exactly once when the mesh is a joint |
| FirstPerson.HeadBone | crates/bevy_vrm/src/first_person.rs:73-76 | the first entity tagged Head, or None (the source's `unwrap` panic) when there is none |
| FirstPerson.HandleSetupEvent | crates/bevy_vrm/src/first_person.rs:45-188 | no Head bone panics; otherwise the event succeeds exactly when every mesh does, and each mesh gets its own outcome |
| TargetChains.TargetChain.Clone | crates/bevy_vrm/src/animations/target_chain.rs:4-9 | a clone has the same names and prefix |
| TargetChains.TargetChain.Target | crates/bevy_vrm/src/animations/target_chain.rs:19-28 | the id is the path of the current names |
| TargetChains.TargetChain.PushTarget | crates/bevy_vrm/src/animations/target_chain.rs:12-17 | appends prefix + name, keeps every earlier name and the prefix, and returns the id of the new path |
| AnimationTargets.BoneParent | crates/bevy_vrm/src/animations/vrm.rs:67-103 | the bone whose chain each bone is pushed onto; only Hips has none, and each step is one level deeper |
| AnimationTargets.Path | crates/bevy_vrm/src/animations/vrm.rs:67-103 | the bones from Hips down to b, as many as b's depth plus one |
| AnimationTargets.ExtendSpec | crates/bevy_vrm/src/animations/vrm.rs:8-15 | inserting a list of bones adds exactly those bones, each with its own path's id |
| AnimationTargets.PushBone | crates/bevy_vrm/src/animations/vrm.rs:8-15 | `push_bone!` pushes the bone's name and stores the chain's new id under the bone |
| AnimationTargets.PathNamesMatch | crates/bevy_vrm/src/animations/vrm.rs:8-15 | the names a chain holds after pushing a bone onto its parent's chain are the names of the bones on the path from Hips |
| AnimationTargets.PushChild | crates/bevy_vrm/src/animations/vrm.rs:8-15 | `push_bone!` on the parent's chain stores the bone's own path id and leaves the chain on that path |
| AnimationTargets.PushSegments | crates/bevy_vrm/src/animations/vrm.rs:17-29 | three pushes of bones each hanging off the one before store each bone's own path id and leave the chain on the last one's path |
| AnimationTargets.FingerTargets | crates/bevy_vrm/src/animations/vrm.rs:17-29 | `finger!` inserts proximal, intermediate and distal on a clone of the hand chain |
| AnimationTargets.ArmTargets | crates/bevy_vrm/src/animations/vrm.rs:31-50 | `arm!` inserts shoulder to hand and then the five fingers on a clone of the UpperChest chain |
| AnimationTargets.ArmTop | crates/bevy_vrm/src/animations/vrm.rs:31-50 | shoulder, upper arm, lower arm and hand are stored with their path ids and the arm chain ends on the hand's path |
| AnimationTargets.HandTargets | crates/bevy_vrm/src/animations/vrm.rs:31-50 | the five `finger!` calls store every finger segment of the side with its path id |
| AnimationTargets.LegTargets | crates/bevy_vrm/src/animations/vrm.rs:52-65 | `leg!` inserts upper leg to toes on a clone of the Hips chain |
| AnimationTargets.TrunkTargets | crates/bevy_vrm/src/animations/vrm.rs:70-79 | Hips, both legs on clones, then Spine, Chest and UpperChest on the main chain |
| AnimationTargets.HeadTargets | crates/bevy_vrm/src/animations/vrm.rs:84-100 | Neck and Head on the main chain, then Jaw and each eye on its own clone |
| AnimationTargets.BuildTargets | crates/bevy_vrm/src/animations/vrm.rs:67-103 | the initialiser builds the table of the `push_bone!` calls in source order |
| AnimationTargets.EveryBoneInserted | crates/bevy_vrm/src/animations/vrm.rs:67-103 | each of the 55 bone names is pushed |
| AnimationTargets.TableIsComplete | crates/bevy_vrm/src/animations/vrm.rs:67-103 | the table has an entry for every bone, and each entry is the id of the bone's path from Hips |
| AnimationTargets.TargetEndsWithOwnName | crates/bevy_vrm/src/animations/vrm.rs:8-15 | every path starts at Hips and ends with the bone's own name |
| AnimationTargets.TargetNamesPath | crates/bevy_vrm/src/animations/vrm.rs:8-15 | each name of an entry names the bone at the same place on the path from Hips |
| AnimationTargets.SpinePath | crates/bevy_vrm/src/animations/vrm.rs:72-77 | the leg clones leave the main chain alone: Spine hangs directly off Hips |
| AnimationTargets.LegPath | crates/bevy_vrm/src/animations/vrm.rs:52-65 | a leg path runs Hips, upper leg, lower leg, foot, toes |
| AnimationTargets.ShoulderPath | crates/bevy_vrm/src/animations/vrm.rs:77-82 | arms hang off UpperChest |
| AnimationTargets.FingerPaths | crates/bevy_vrm/src/animations/vrm.rs:17-29 | each finger branches from its own hand, not from the previous finger |
| AnimationTargets.FacePaths | crates/bevy_vrm/src/animations/vrm.rs:84-100 | Jaw and the eyes are each the Head path plus one name |
| AnimationTargets.PrefixClosed | crates/bevy_vrm/src/animations/vrm.rs:67-103 | dropping the last bone of any path but Hips's gives another bone's path |
| AnimationTargets.InsertedOnce | crates/bevy_vrm/src/animations/vrm.rs:67-103 | each of the 55 bone names is pushed exactly once |
| VrmGraph.Targets | crates/gltf_kun_vrm/src/vrm0/mod.rs:67-113 | a property list never holds more targets than there are edges |
| VrmGraph.FindPropertyIsFirstTarget | crates/gltf_kun_vrm/src/vrm0/mod.rs:79-81 | the single-valued getter returns the head of the list getter |
| VrmGraph.AddedLast | crates/gltf_kun_vrm/src/vrm0/mod.rs:72-74 | adding puts the target at the end of its own list and leaves every other list unchanged |
| VrmGraph.RemovedInOrder | crates/gltf_kun_vrm/src/vrm0/mod.rs:75-77 | removing drops the target from its list, keeps the rest in order, and leaves every other list unchanged |
| VrmGraph.ClearedTargets | crates/gltf_kun_vrm/src/vrm0/mod.rs:82-84 | the first half of a set empties that one list and no other |
| VrmGraph.SetThenFind | crates/gltf_kun_vrm/src/vrm0/mod.rs:140-152 | setting then reading back a single-valued property gives what was set, Some or None; every other property is unchanged |
| VrmGraph.VrmLabelsDistinct | crates/gltf_kun_vrm/src/vrm0/mod.rs:23-41 | the serde names of the Vrm edges are pairwise distinct, so an operation on one kind never touches another |
| VrmGraph.PropertyGraph.AddNode | crates/gltf_kun_vrm/src/vrm0/import.rs:68 | a new node gets the next index and no edges |
| VrmGraph.PropertyGraph.Write | crates/gltf_kun_vrm/src/vrm0/import.rs:130 | writing replaces one node's weight only |
| VrmGraph.PropertyGraph.AddProperty | crates/gltf_kun_vrm/src/vrm0/mod.rs:72-74 | one edge is appended and its target ends its list |
| VrmGraph.PropertyGraph.RemoveProperty | crates/gltf_kun_vrm/src/vrm0/mod.rs:75-77 | the edges to the target are dropped and the list loses every occurrence of it |
| VrmGraph.PropertyGraph.SetProperty | crates/gltf_kun_vrm/src/vrm0/mod.rs:82-84 | every old edge under the label is dropped and the getter then returns the new value |
| VrmGraph.NewVrm | crates/gltf_kun_vrm/src/vrm0/mod.rs:43-65 | a fresh Vrm node with the default weight and no edges of its own |
| VrmGraph.AddVrmItem | crates/gltf_kun_vrm/src/vrm0/mod.rs:72-74 | the item is appended to its own list; the other Vrm edges are kept |
| VrmGraph.RemoveVrmItem | crates/gltf_kun_vrm/src/vrm0/mod.rs:93-95 | the item leaves its list, the rest keep their order; the other Vrm edges are kept |
| VrmGraph.SetVrmSingle | crates/gltf_kun_vrm/src/vrm0/mod.rs:111-113 | the getter then returns what was set; the other Vrm edges are kept |
| VrmGraph.ListScenario | crates/gltf_kun_vrm/src/vrm0/mod.rs:122-138 | on a new Vrm node, adding a then b lists [a, b], and removing a then lists [b] |
| VrmImport.LookupAt | crates/gltf_kun_vrm/src/vrm0/import.rs:296-303 | the k-th looked-up node is the node the k-th index names |
| VrmImport.NewNode | crates/gltf_kun_vrm/src/vrm0/import.rs:68 | a wrapper's `new` adds one node with no edges and leaves every existing property unchanged |
| VrmImport.Link | crates/gltf_kun_vrm/src/vrm0/import.rs:69 | `add_property` appends the target to that one list and changes no other property |
| VrmImport.SetLink | crates/gltf_kun_vrm/src/vrm0/import.rs:71 | `set_property` makes the getter return the value and changes no other property |
| VrmImport.WriteNode | crates/gltf_kun_vrm/src/vrm0/import.rs:130 | `write` replaces one weight and no edge |
| VrmImport.ImportTextureSlot | crates/gltf_kun_vrm/src/vrm0/import.rs:74-81 | a present index must name a glTF texture (else `TextureNotFound(idx)`), which then fills the slot; an absent index leaves the slot alone |
| VrmImport.TextureLabelsDistinct | crates/gltf_kun_vrm/src/vrm0/import.rs:73-118 | the five texture slots are stored under five different labels |
| VrmImport.ImportTextureSlots | crates/gltf_kun_vrm/src/vrm0/import.rs:73-118 | base colour, shade, additive, normal and emissive are checked in that order and the first bad index is the error; on success each present slot holds its texture |
| VrmImport.ImportMaterialProperty | crates/gltf_kun_vrm/src/vrm0/import.rs:56-131 | the i-th property needs the i-th glTF material (else `MaterialNotFound(i)`, with nothing written); otherwise a new node is appended to the Vrm node's material-property list, no other list or weight of an existing node changes, and on success the node is bound to that material, fills each present texture slot and carries the JSON's name, shader, render queue, float and vector properties, with empty float and vector tables as defaults |
| VrmImport.FillMaterialProperty | crates/gltf_kun_vrm/src/vrm0/import.rs:71-130 | a fresh property is bound to its material, then its texture slots are checked in order, then its weight is written; no other node changes |
| VrmImport.ImportMaterialProperties | crates/gltf_kun_vrm/src/vrm0/import.rs:56-131 | the properties are imported in order and the first failure is the error; the material-property list grows by exactly the nodes created, in order, and on success the k-th is built from the k-th JSON entry and the k-th glTF material |
| VrmImport.ImportThumbnail | crates/gltf_kun_vrm/src/vrm0/import.rs:133-141 | a thumbnail index must name a glTF texture, which becomes the Vrm node's thumbnail |
| VrmImport.ImportHumanBone | crates/gltf_kun_vrm/src/vrm0/import.rs:166-186 | a bone node is created and appended to the human-bone list before its node index is checked (else `NodeNotFound`); on success it holds the JSON name and its glTF node |
| VrmImport.ImportHumanBones | crates/gltf_kun_vrm/src/vrm0/import.rs:161-186 | bones are created in JSON order and the human-bone list grows by exactly those nodes; the first missing node is the error; on success the k-th bone is built from the k-th JSON bone |
| VrmImport.ImportFirstPerson | crates/gltf_kun_vrm/src/vrm0/import.rs:202-210 | the first-person bone indexes the human bones of this import (else `BoneNotFound`) and becomes the Vrm node's first-person bone |
| VrmImport.ImportBind | crates/gltf_kun_vrm/src/vrm0/import.rs:232-250 | a bind node is created; it is bound to its mesh's primitive only when both exist, and never fails |
| VrmImport.ImportBlendShapeGroup | crates/gltf_kun_vrm/src/vrm0/import.rs:227-260 | the group node and its binds are created but the group is not attached to the Vrm node; the group's weight carries its name, preset name and binary flag |
| VrmImport.ImportBlendShapes | crates/gltf_kun_vrm/src/vrm0/import.rs:224-261 | the blend-shape stage never fails and changes no edge of a node that existed before it |
| VrmImport.ImportColliderGroup | crates/gltf_kun_vrm/src/vrm0/import.rs:268-286 | a collider-group node is created and no existing node changes; a present node index must resolve (else `NodeNotFound`); on success the group is bound to that node and its weight records how many colliders the JSON lists |
| VrmImport.ImportColliderGroups | crates/gltf_kun_vrm/src/vrm0/import.rs:264-286 | all collider groups are created in order before any bone group and no existing node changes; the first missing node is the error; on success the k-th is built from the k-th JSON entry |
| VrmImport.LinkAll | crates/gltf_kun_vrm/src/vrm0/import.rs:294-318 | the shared bone-group loop stops at the first index with no entry and reports it; otherwise the node lists exactly the indexed entries, in order, and no other list changes |
| VrmImport.ImportGroupBones | crates/gltf_kun_vrm/src/vrm0/import.rs:294-303 | the first bone index past the node count is `BoneNotFound`; otherwise the group lists exactly the named nodes, in order |
| VrmImport.ImportGroupColliders | crates/gltf_kun_vrm/src/vrm0/import.rs:305-318 | the first collider-group index past this import's groups is `ColliderGroupNotFound`; otherwise the group lists exactly those groups, in order |
| VrmImport.ImportBoneGroup | crates/gltf_kun_vrm/src/vrm0/import.rs:290-331 | a bone-group node is created and appended to the bone-group list, then its bones and collider groups are checked in that order; on success its bones are the glTF nodes its indices name, its collider groups are the imported ones its indices name, in order, and its weight is written |
| VrmImport.ImportNextBoneGroup | crates/gltf_kun_vrm/src/vrm0/import.rs:290-331 | importing the next bone group keeps the collider groups and the earlier bone groups as they were built |
| VrmImport.ImportBoneGroups | crates/gltf_kun_vrm/src/vrm0/import.rs:288-331 | the bone groups are imported in order and the first failure is the error; the bone-group list grows by exactly the nodes created, and on success the k-th is built from the k-th JSON entry |
| VrmImport.ImportSecondary | crates/gltf_kun_vrm/src/vrm0/import.rs:263-332 | a missing `secondaryAnimation` leaves the graph unchanged; otherwise collider groups, then bone groups; on success the bone-group list holds one built node per JSON bone group, in order |
| VrmImport.Import | crates/gltf_kun_vrm/src/vrm0/import.rs:36-344 | with no `"VRM"` entry the graph is unchanged and the result is Ok; an entry that does not parse is an error before anything is written; otherwise a Vrm node is attached to the document root and the first unresolved index is the error, leaving the Vrm weight at its default; on success the Vrm node's material-property, human-bone and bone-group lists hold exactly the nodes built from the JSON, in order, and the weight carries the exporter version (the other parts of the weight are not modelled) |
| VrmImport.ImportParsed | crates/gltf_kun_vrm/src/vrm0/import.rs:53-344 | once the entry parses: a new Vrm node is the document root's extension edge; the error is the first unresolved index; the Vrm node ends built or, on failure, with the default weight |
| VrmImport.ImportStages | crates/gltf_kun_vrm/src/vrm0/import.rs:56-344 | the stages run in source order and the first unresolved index is the error, with the Vrm weight untouched; on success every Vrm list is built from the JSON and the Vrm weight is written |
| VrmImport.ImportMaterialsAndMeta | crates/gltf_kun_vrm/src/vrm0/import.rs:56-159 | the material-property then the meta stage; on success the material-property list is built and the other two lists are untouched |
| VrmImport.ImportHumanoidStages | crates/gltf_kun_vrm/src/vrm0/import.rs:161-222 | the humanoid then the first-person stage; on success the human-bone list is built, the material-property list stays built and the bone-group list is untouched |
| VrmImport.ImportLastStages | crates/gltf_kun_vrm/src/vrm0/import.rs:224-341 | the blend-shape and secondary-animation stages, then the Vrm weight, which is written only when both succeed |
| VrmImportSpec.FirstAtLeast | crates/gltf_kun_vrm/src/vrm0/import.rs:296-302 | the reported index is one of the listed indices and is out of range |
| VrmImportSpec.FirstAtLeastNone | crates/gltf_kun_vrm/src/vrm0/import.rs:296-302 | no index is reported exactly when every index is in range |
| VrmImportSpec.TextureSlotsErrorNone | crates/gltf_kun_vrm/src/vrm0/import.rs:73-118 | the texture slots pass exactly when every present slot names a glTF texture |
| VrmImportSpec.MaterialsErrorNone | crates/gltf_kun_vrm/src/vrm0/import.rs:56-131 | the material stage passes exactly when every property has its material and its textures |
| VrmImportSpec.BonesErrorNone | crates/gltf_kun_vrm/src/vrm0/import.rs:166-186 | the humanoid stage passes exactly when every present node index resolves |
| VrmImportSpec.ColliderGroupsErrorNone | crates/gltf_kun_vrm/src/vrm0/import.rs:268-286 | the collider-group loop passes exactly when every present node index resolves |
| VrmImportSpec.BoneGroupsErrorNone | crates/gltf_kun_vrm/src/vrm0/import.rs:290-331 | the bone-group loop passes exactly when every group's bones and collider groups resolve |
| VrmImportSpec.ImportSucceedsIffResolved | crates/gltf_kun_vrm/src/vrm0/import.rs:36-344 | a parsed extension imports without error exactly when every index in it resolves |
| VrmImportSpec.MaterialNotFoundAtCount | crates/gltf_kun_vrm/src/vrm0/import.rs:62-66 | `MaterialNotFound(m)` is only ever reported for m equal to the glTF material count, with more properties than materials |
| VrmImportSpec.TextureSlotsErrorIsTexture | crates/gltf_kun_vrm/src/vrm0/import.rs:73-118 | a texture slot can only fail with `TextureNotFound` |
| VrmImportSpec.NeverBoneGroupNotFound | crates/gltf_kun_vrm/src/vrm0/import.rs:19-33 | `BoneGroupNotFound` is declared but no input makes the import return it |
| VrmImportSpec.NoBoneGroupNotFound | crates/gltf_kun_vrm/src/vrm0/import.rs:36-344 | no stage of a parsed extension reports `BoneGroupNotFound` |
| HumanoidLookup.FirstDocument | crates/bevy_vrm/src/loader/humanoid_bones.rs:15-21 | the document is the lowest-numbered graph node with a document weight, or None when there is none |
| HumanoidLookup.FirstWithKey | crates/bevy_vrm/src/humanoid_bones.rs:63-69 | `find_map` returns the first component of the first pair whose second component matches, and None exactly when no pair matches |
| HumanoidLookup.AssignAppend | crates/bevy_vrm/src/loader/humanoid_bones.rs:48 | one more `insert` applies after all the earlier ones |
| HumanoidLookup.AssignSpec | crates/bevy_vrm/src/loader/humanoid_bones.rs:30-49 | a sequence of `HashMap::insert`: a key is present iff it was before or some entry writes it, an unwritten key keeps its value, and a written key holds the last writer's value |
| HumanoidBonesLoader.HandleEntriesAt | crates/bevy_vrm/src/loader/humanoid_bones.rs:30-46 | each human bone contributes its name and its node's handle, or nothing when the node, the name or the handle is missing |
| HumanoidBonesLoader.LoadHumanoidBones | crates/bevy_vrm/src/loader/humanoid_bones.rs:14-52 | None exactly when there is no document node or it has no Vrm extension; otherwise the map of the loop |
| HumanoidBonesLoader.LoadedBonesSpec | crates/bevy_vrm/src/loader/humanoid_bones.rs:28-51 | a bone name is in the map iff some human bone resolves to it, and it maps to the node handle of the last such bone |
| HumanoidBonesSystem.EntityEntriesAt | crates/bevy_vrm/src/humanoid_bones.rs:45-89 | each human bone contributes its name and the first entity named like its glTF node, or nothing when a link of that chain is missing |
| HumanoidBonesSystem.SetEntityBones | crates/bevy_vrm/src/humanoid_bones.rs:22-92 | one entity: skipped while its scene instance is not ready or its asset is not loaded; otherwise marked initialised, and its bone map updated by the lookup chain |
| HumanoidBonesSystem.SetHumanoidBones | crates/bevy_vrm/src/humanoid_bones.rs:12-94 | every uninitialised entity of the query is processed on its own, as SetEntityBones states |
| HumanoidBonesSystem.PassMarks | crates/bevy_vrm/src/humanoid_bones.rs:23-28 | an entity is marked iff it was already or its instance is ready and its asset loaded; a second run changes nothing |
| HumanoidBonesSystem.PassBindings | crates/bevy_vrm/src/humanoid_bones.rs:45-91 | after a run a bone name is bound iff it was before or some human bone resolves to it, and it holds the entity of the last such bone |
| HumanoidBonesSystem.BoundEntityIsNamed | crates/bevy_vrm/src/humanoid_bones.rs:58-88 | a bone resolves to entity e only when e is the first entity carrying the name under which the bone's node handle is registered |
| AutoScene.CandidateSpec | crates/bevy_vrm/src/auto_scene.rs:23-29 | the candidate is the default scene when there is one, else the first scene; there is none only when the glTF has neither |
| AutoScene.AutoTargets | crates/bevy_vrm/src/auto_scene.rs:17-34 | each row's target needs a loaded VRM, a candidate scene and a loaded `GltfScene` asset for it |
| AutoScene.SetVrmScene | crates/bevy_vrm/src/auto_scene.rs:11-42 | one insertion per row whose target exists and differs from its current scene, in query order |
| AutoScene.Applied | crates/bevy_vrm/src/auto_scene.rs:40 | after the queued commands run, each row shows the scene of the last command for its entity, or keeps its own |
| AutoScene.InsertsSpec | crates/bevy_vrm/src/auto_scene.rs:36-40 | an insertion is queued for an entity iff its row has a target different from its current scene |
| AutoScene.InsertsLastFor | crates/bevy_vrm/src/auto_scene.rs:36-40 | with one row per entity, the last command for a row's entity is the one that row queued |
| AutoScene.CommandsSettle | crates/bevy_vrm/src/auto_scene.rs:36-40 | after one run every row with a target shows it and the others keep their scene; a second run with the same targets queues nothing |
| AutoScene.AutoSceneSettles | crates/bevy_vrm/src/auto_scene.rs:11-42 | `set_vrm_scene` settles: each entity ends on its chosen scene when there is one, and a second run queues nothing |
| Extensions.ImportExtension | crates/bevy_vrm/src/extensions/mod.rs:24-34 | the extension import runs the VRM 0.x import and passes on its result and its error |
| Extensions.ImportMaterialHook | crates/bevy_vrm/src/extensions/mod.rs:37-45 | without a Vrm extension on the document no labelled asset changes; with one the vrm0 `import_material` runs |
| Extensions.ImportPrimitiveHook | crates/bevy_vrm/src/extensions/mod.rs:49-57 | without a Vrm extension or a primitive material the entity is unchanged; otherwise the vrm0 `import_primitive_material` runs |
| Extensions.TagEntriesAt | crates/bevy_vrm/src/extensions/mod.rs:82-135 | each human bone contributes the first entity named like its glTF node, tagged with its bone name, or nothing when a link is missing |
| Extensions.ImportScene | crates/bevy_vrm/src/extensions/mod.rs:60-136 | `import_scene` leaves the world's bone tags as SceneTags states: nothing without a document node or a Vrm extension, else one insertion per resolved bone, in order |
| Extensions.TagBones | crates/bevy_vrm/src/extensions/mod.rs:82-135 | the bone loop leaves the bone tags as the in-order insertions of every resolving bone, applied to the tags from before |
| Extensions.SceneTagsSpec | crates/bevy_vrm/src/extensions/mod.rs:82-135 | an entity carries a bone name afterwards iff it did before or some human bone resolves to it, and then holds the last such bone's name |
| Extensions.SceneTagsIdempotent | crates/bevy_vrm/src/extensions/mod.rs:60-136 | without a document or an extension the tags are untouched, and a second `import_scene` changes nothing more |
| Extensions.AssignTwice | crates/bevy_vrm/src/extensions/mod.rs:132 | replaying the same component insertions is a no-op |
| Extensions.LastWriter | crates/bevy_vrm/src/extensions/mod.rs:132 | when some insertion writes a key, there is a last one |
| MtoonImport.ReadProperty | crates/bevy_vrm/src/extensions/vrm0/mod.rs:30 | reading a material property always yields a material-property weight |
| MtoonImport.IndexOf | crates/bevy_vrm/src/extensions/vrm0/mod.rs:164-169 | `position` finds the first occurrence of the texture, and None exactly when it is absent |
| MtoonImport.TextureHandle | crates/bevy_vrm/src/extensions/vrm0/mod.rs:124-128 | a texture's handle is the `Texture{i}` label of its position in the document |
| MtoonImport.SlotHandle | crates/bevy_vrm/src/extensions/vrm0/mod.rs:124-145 | a filled texture slot overrides the handle; an empty slot keeps the current one |
| MtoonImport.LoadBase | crates/bevy_vrm/src/extensions/vrm0/mod.rs:120-145 | the cloned standard material gets the property's colour and its base, normal and emissive textures where present |
| MtoonImport.LoadShader | crates/bevy_vrm/src/extensions/vrm0/mod.rs:116-175 | the default shader with every parameter the property has mapped in |
| MtoonImport.LoadMtoonShader | crates/bevy_vrm/src/extensions/vrm0/mod.rs:111-176 | `load_mtoon_shader` builds exactly the base and shader of MtoonFor |
| MtoonImport.MtoonParameters | crates/bevy_vrm/src/extensions/vrm0/mod.rs:147-161 | GI equalisation plus indirect light intensity is one, the shading shift is the negated shade shift, toony is copied, an empty property gives the default shader, and a base texture is the standard one or the label of the main texture's position |
| MtoonImport.LabelsDistinct | crates/bevy_vrm/src/extensions/vrm0/mod.rs:178-184 | `MaterialMtoon{i}` never equals `Texture{j}`, and each label family is injective |
| MtoonImport.AddAbsentAppend | crates/bevy_vrm/src/extensions/vrm0/mod.rs:36-49 | one more guarded `add_loaded_labeled_asset` applies after the earlier ones |
| MtoonImport.RequestsAt | crates/bevy_vrm/src/extensions/vrm0/mod.rs:17-57 | the k-th request is the MToon material of property k when it is bound to this material and asks for MToon |
| MtoonImport.ImportMaterial | crates/bevy_vrm/src/extensions/vrm0/mod.rs:11-58 | `import_material` adds each requested MToon asset under its label unless the label already exists |
| MtoonImport.ImportMaterialProperty | crates/bevy_vrm/src/extensions/vrm0/mod.rs:18-56 | one iteration adds property i's request when its label is free |
| MtoonImport.AddAbsentSpec | crates/bevy_vrm/src/extensions/vrm0/mod.rs:36-49 | first writer wins: a label is present iff it was before or some request names it; an existing label keeps its asset, and a new one holds the first request's asset |
| MtoonImport.ImportMaterialAddsOnce | crates/bevy_vrm/src/extensions/vrm0/mod.rs:17-57 | `MaterialMtoon{i}` exists afterwards iff it did before or property i is bound to the material and asks for MToon; an existing label is never replaced, a new one holds the material built from property i |
| MtoonImport.LastAppend | crates/bevy_vrm/src/extensions/vrm0/mod.rs:99-101 | a later swap replaces an earlier one |
| MtoonImport.SwapsAt | crates/bevy_vrm/src/extensions/vrm0/mod.rs:71-108 | the k-th swap is property k's label when it is bound to the primitive's material, asks for MToon and the label exists |
| MtoonImport.ImportPrimitiveMaterial | crates/bevy_vrm/src/extensions/vrm0/mod.rs:60-109 | a primitive without a material is left alone; otherwise the last applicable property's MToon handle replaces the standard material and adds `OutlineSync`, and with none the entity is unchanged |
| MtoonImport.SwapAt | crates/bevy_vrm/src/extensions/vrm0/mod.rs:72-107 | one iteration yields property i's swap, if any |
| MtoonImport.LastSpec | crates/bevy_vrm/src/extensions/vrm0/mod.rs:71-108 | the last present swap wins, and there is none exactly when every iteration skipped |
| MtoonImport.SwappedLabelIsRequested | crates/bevy_vrm/src/extensions/vrm0/mod.rs:60-109 | a primitive ends on `MaterialMtoon{i}` only for a property i bound to its material, asking for MToon, whose label exists, with no later such property; it keeps its material exactly when there is none |
| Labels.DigitChar | crates/bevy_vrm/src/loader/vrm0.rs:137-147 | a digit below ten is written as a character between `'0'` and `'9'` |
| Labels.DigitValue | crates/bevy_vrm/src/loader/vrm0.rs:137-147 | reading a decimal character gives a digit below ten |
| Labels.NatToString | crates/bevy_vrm/src/loader/vrm0.rs:137-147 | `{index}` formatting yields a non-empty all-digit string, one character long exactly for indices below ten |
| Labels.DecimalValueOfNatToString | crates/bevy_vrm/src/loader/vrm0.rs:137-147 | reading back the formatted index gives the index |
| Labels.NatToStringInjective | crates/bevy_vrm/src/loader/vrm0.rs:137-147 | two indices with the same decimal text are equal |
| Labels.Label | crates/bevy_vrm/src/extensions/vrm0/mod.rs:178-184 | a label is its prefix followed by digits whose value is the index |
| Labels.LabelInjective | crates/bevy_vrm/src/loader/vrm0.rs:137-147 | labels of one family never collide for different indices |
| Labels.LabelFamiliesDisjoint | crates/bevy_vrm/src/loader/vrm0.rs:137-147 | prefixes that differ at some position inside both give disjoint label families |
| Vrm0Loader.LoadMtoon | crates/bevy_vrm/src/loader/vrm0.rs:82-135 | returns the label `MaterialVRM/MToon{index}` and adds exactly that labeled asset, built from the property and the labels loaded before |
| Vrm0Loader.LoadFloats | crates/bevy_vrm/src/loader/vrm0.rs:91-99 | shade shift and shade toony overwrite the default only when present, and are copied without change of sign |
| Vrm0Loader.LoadVectors | crates/bevy_vrm/src/loader/vrm0.rs:101-109 | base and shade colours overwrite the default only when present |
| Vrm0Loader.LoadTextures | crates/bevy_vrm/src/loader/vrm0.rs:111-129 | each texture slot is set only when its `Texture{i}` label is already loaded |
| Vrm0Loader.LoadedMtoonParameters | crates/bevy_vrm/src/loader/vrm0.rs:89-129 | shift and toony are copied; with no floats, vectors or textures the material is the default; the base texture is set iff `mainTex` is given and loaded, and its label reads back `mainTex` |
| Vrm0Loader.LabelFamiliesDistinct | crates/bevy_vrm/src/loader/vrm0.rs:137-147 | mesh, MToon and texture labels never collide, and MToon labels are distinct per index |
| Vrm0Loader.LoadMaterials | crates/bevy_vrm/src/loader/vrm0.rs:21-39 | exactly the properties with shader `VRM/MToon` enter the table under their own index and get a labeled asset; others change nothing; markers and extensions untouched |
| Vrm0Loader.LoadedAssetsSpec | crates/bevy_vrm/src/loader/vrm0.rs:25-37 | the material loop adds one `MaterialVRM/MToon{i}` label per MToon property and no other label, each holding that property's material |
| Vrm0Loader.LabelsAfterSpec | crates/bevy_vrm/src/loader/vrm0.rs:25-37 | after the loop a label is present iff it was before or names an MToon property; those hold their materials and every other label keeps its asset |
| Vrm0Loader.LabelsStep | crates/bevy_vrm/src/loader/vrm0.rs:29-32 | storing property i's material under its label extends the label invariant by one property |
| Vrm0Loader.TableStep | crates/bevy_vrm/src/loader/vrm0.rs:29-32 | inserting an MToon property at index i extends the table invariant by one property |
| Vrm0Loader.SkipStep | crates/bevy_vrm/src/loader/vrm0.rs:27-37 | a property without shader or with an unknown shader keeps both invariants |
| Vrm0Loader.LoadStep | crates/bevy_vrm/src/loader/vrm0.rs:29-32 | loading one MToon property extends the label invariant and sets `mtoon_materials[i]` to its label |
| Vrm0Loader.LoadedAgrees | crates/bevy_vrm/src/loader/vrm0.rs:111-129 | adding MToon assets never changes what a later MToon material resolves to |
| Vrm0Loader.TextureLabelAgrees | crates/bevy_vrm/src/loader/vrm0.rs:115-124 | adding MToon assets never makes a `Texture{j}` label appear or disappear |
| Vrm0Loader.CreateMarkers | crates/bevy_vrm/src/loader/vrm0.rs:41-74 | appends the markers for every mesh in order, leaving the material table and extensions unchanged |
| Vrm0Loader.LoadGltf | crates/bevy_vrm/src/loader/vrm0.rs:11-79 | fails with "VRM0 not found", changing nothing, iff the VRM 0 extension is absent; otherwise fills the table and labels, appends the markers and copies the extensions |
| Vrm0Loader.PrimitiveMarkersSpec | crates/bevy_vrm/src/loader/vrm0.rs:49-72 | a primitive gets a marker iff it has a material that is in the MToon table and its mesh label is loaded; the marker names that primitive and that material |
| Vrm0Loader.MarkersSpec | crates/bevy_vrm/src/loader/vrm0.rs:42-74 | the marker list contains exactly the markers of the meshes visited |
| Vrm0Loader.MeshMarkersSpec | crates/bevy_vrm/src/loader/vrm0.rs:46-73 | one mesh's markers are exactly the markers that belong to that mesh |
| Vrm0Loader.MarkerMeshUnique | crates/bevy_vrm/src/loader/vrm0.rs:47 | a marker belongs to only one mesh, because mesh labels are distinct |
| Vrm0Loader.ShadeShiftSigns | crates/bevy_vrm/src/loader/vrm0.rs:92-94 | this loader copies the shade shift, while the extension hook (crates/bevy_vrm/src/extensions/vrm0/mod.rs:151-153) negates it, so any non-zero shift disagrees |
| VrmAssetLoader.IsGlbIsHeaderMagic | crates/bevy_vrm/src/loader.rs:54 | the binary-container test is exactly "at least 4 bytes whose little-endian uint32 is the magic 0x46546C67" from section 4.4 of the glTF 2.0 specification |
| VrmAssetLoader.GlbPrefix | crates/bevy_vrm/src/loader.rs:54 | bytes starting with `glTF` are binary; fewer than four bytes never are |
| VrmAssetLoader.LoadSpec | crates/bevy_vrm/src/loader.rs:40-70 | a read error becomes `Gltf(Io(e))`; otherwise the loader chosen by the magic decides, its error wrapped in `Gltf` and its value wrapped in `Vrm`; the loader not chosen has no influence |
| VrmLib.LibTargets | bevy_vrm/src/lib.rs:62-75 | one target per scene entity: the asset's default scene, else its first scene, else none |
| VrmLib.SetVrmScene | bevy_vrm/src/lib.rs:57-82 | issues an insert only for entities whose target differs from their current scene |
| VrmLib.LibSceneSettles | bevy_vrm/src/lib.rs:57-82 | after the inserts every entity holds its target (or its old scene without one) and a second pass issues nothing |
| VrmLib.SwapPrimitive | bevy_vrm/src/lib.rs:127-138 | sets the MToon material on every entity whose mesh is that primitive's mesh |
| VrmLib.SwapsSpec | bevy_vrm/src/lib.rs:127-138 | a swap targets an entity iff it shows that primitive mesh; at least one swap happens iff some entity shows it |
| VrmLib.ReplaceMarker | bevy_vrm/src/lib.rs:113-143 | swaps the material on the marker's primitive and removes the marker only when a swap happened; a missing glTF mesh panics |
| VrmLib.ReplaceMtoonMaterials | bevy_vrm/src/lib.rs:107-145 | the commands of every marker in order |
| VrmLib.ReplaceSpec | bevy_vrm/src/lib.rs:107-145 | the system panics iff some marker's glTF mesh is not loaded; otherwise a command is issued iff some marker asks for it |
| VrmLib.FindFirst | bevy_vrm/src/lib.rs:310-315 | the search for a node's name stops at the first pair with that handle |
| VrmLib.Resolve | bevy_vrm/src/lib.rs:305-327 | a node resolves only if its index is in range and some name of its handle is carried by the returned entity; an index out of range or a nameless node does not resolve |
| VrmLib.ResolveNode | bevy_vrm/src/lib.rs:305-327 | the name and entity loops compute `Resolve` |
| VrmLib.LoadSpringBone | bevy_vrm/src/lib.rs:302-342 | the loops build one spring bone as `SpringBoneOf` does, or panic |
| VrmLib.LoadSpringBones | bevy_vrm/src/lib.rs:297-345 | the loop over bone groups builds the list as `SpringBonesOf` does, or panics |
| VrmLib.SpringBonesSpec | bevy_vrm/src/lib.rs:297-345 | panics iff some group lacks bones or a parameter, or one of its nodes does not resolve; otherwise one spring bone per group copying every parameter, with one resolved entity per listed node, in order |
| VrmLib.TableStep | bevy_vrm/src/lib.rs:373-514 | one human bone fills its slot or, if unrecognised, its `others` entry, overwriting an earlier one |
| VrmLib.LoadHumanoid | bevy_vrm/src/lib.rs:347-573 | the humanoid loop computes `HumanoidOf`, the table of the match as written (`leftToe`/`rightToe` for the toes), panicking where it does |
| VrmLib.ResolveTable | bevy_vrm/src/lib.rs:347-513 | the bone loop fails exactly when some bone lacks a name, a node or an entity; otherwise it yields the table that the match as written builds from every resolved bone, in order |
| VrmLib.InsertBone | bevy_vrm/src/lib.rs:373-513 | a name that the match as written recognises (the VRM 0 name, but `leftToe`/`rightToe` for the toes) overwrites that slot and leaves `others` alone; any other name is inserted into `others` under itself |
| VrmLib.TableSpec | bevy_vrm/src/lib.rs:373-514 | the corrected table, with the VRM 0 names (`leftToes` for the toes): a slot is filled iff its name occurs, with the last occurrence's entity; a name enters `others` iff it occurs and names no slot |
| VrmLib.HookTableSpec | bevy_vrm/src/lib.rs:373-514 | the table as written: a slot is filled iff its name in the match occurs (`leftToe`/`rightToe` for the toes), with the last occurrence's entity; a name enters `others` iff it occurs and the match recognises no slot for it |
| VrmLib.HookSelects | bevy_vrm/src/lib.rs:373-514 | in the match as written a string selects a slot iff it is that slot's name in the match |
| VrmLib.SlotSelects | bevy_vrm/src/lib.rs:373-514 | with the VRM 0 names a string selects a slot iff it is that slot's VRM 0 name |
| VrmLib.BoneTargetsSpec | bevy_vrm/src/lib.rs:347-371 | without a panic, each human bone has a name and a node, and the node resolves to the paired entity |
| VrmLib.HumanoidSpec | bevy_vrm/src/lib.rs:347-573 | without a panic, the 17 required slots are filled, a slot is filled iff a bone carries its name in the match as written (`leftToe`/`rightToe` for the toes), and it holds the last such bone's entity |
| VrmLib.HumanoidTable | bevy_vrm/src/lib.rs:347-573 | an inserted humanoid has the 17 required slots and is the table of the match as written over the resolved bones |
| VrmLib.HumanoidMissesToes | bevy_vrm/src/lib.rs:419-420 | a humanoid with no bone named `leftToe` (`rightToe`) is inserted with that toe slot empty, even if a bone is named `leftToes` |
| VrmLib.SlotRoundTrip | bevy_vrm/src/lib.rs:373-514 | each of the 55 slots is recognised from its VRM 0 name (crates/serde_vrm/src/vrm0/mod.rs), toes included |
| VrmLib.SlotInverse | bevy_vrm/src/lib.rs:373-514 | a recognised name is exactly that slot's VRM 0 name, so no two names share a slot |
| VrmLib.HookSlotAgrees | bevy_vrm/src/lib.rs:373-514 | the match as written agrees with the VRM 0 names on every slot except the toes |
| VrmLib.HookSlotMissesToes | bevy_vrm/src/lib.rs:419-420 | the match as written does not recognise `leftToes`/`rightToes`, only `leftToe`/`rightToe` |
| VrmLib.AsWrittenToes | bevy_vrm/src/lib.rs:419-420 | a model naming its toes `leftToes` gets no toe slot from the hook as written but an `others` entry, while the corrected table fills the slot |
| VrmLib.FingerRoundTrip | bevy_vrm/src/lib.rs:421-510 | a finger word followed by a segment word reads back as that finger and segment |
| VrmLib.SidedRoundTrip | bevy_vrm/src/lib.rs:376-510 | a sided name read after its side prefix gives back its bone |
| VrmLib.ParseSided | bevy_vrm/src/lib.rs:373-514 | every slot name parses back to its slot |
| VrmLib.SidedCase | bevy_vrm/src/lib.rs:376-510 | every sided slot name parses back to its slot |
| VrmLib.FingerInverse | bevy_vrm/src/lib.rs:421-510 | a recognised finger prefix is literally the finger word |
| VrmLib.SidedInverse | bevy_vrm/src/lib.rs:376-510 | a recognised sided name is literally the side prefix and the slot's name |
| VrmLib.ParseInverse | bevy_vrm/src/lib.rs:373-514 | a parsed name is literally that slot's name |
| VrmLib.LoadInstance | bevy_vrm/src/lib.rs:290-575 | one instance: skipped unless ready and loaded, otherwise marked `VrmLoaded` and given its spring bones and the humanoid bones of the match as written |
| VrmLib.VrmBoneHook | bevy_vrm/src/lib.rs:283-577 | the commands of every unloaded instance in order (humanoid tables as the match is written), or a panic |
| VrmLib.HookLoadedIff | bevy_vrm/src/lib.rs:290-295 | an instance is marked `VrmLoaded` iff its scene is ready and its asset present, and no other instance gets any command |
| MtoonOutline.UpdateMtoonShader | crates/bevy_shader_mtoon/src/lib.rs:39-49 | with exactly one sun, every material takes its back direction and colour; otherwise no material changes |
| MtoonOutline.AddOutline | crates/bevy_shader_mtoon/src/lib.rs:57-68 | inserts outline components exactly for synced entities without an outline volume |
| MtoonOutline.MaxHeight | crates/bevy_shader_mtoon/src/lib.rs:87-89 | at least 0, at least every window height, and either 0 or one of the heights |
| MtoonOutline.Nearest | crates/bevy_shader_mtoon/src/lib.rs:115-119 | none iff there is no camera; otherwise one of the distances and no larger than any |
| MtoonOutline.SyncOne | crates/bevy_shader_mtoon/src/lib.rs:97-125 | updates one outline volume as `Synced` prescribes |
| MtoonOutline.SyncOutline | crates/bevy_shader_mtoon/src/lib.rs:70-127 | every synced outline ends as `Synced` of its old state, its material (unchanged if not loaded), the maximum window height and its camera distances |
| MtoonOutline.OutlineModes | crates/bevy_shader_mtoon/src/lib.rs:91-125 | no material leaves the outline unchanged; visible iff the mode is not None; None keeps width and colour; Screen and World copy the outline colour |
| MtoonOutline.ScreenWidth | crates/bevy_shader_mtoon/src/lib.rs:102-107 | screen width is finite, at least the ratio times every window height, and 0 with no window |
| MtoonOutline.NearestZero | crates/bevy_shader_mtoon/src/lib.rs:115-119 | the chosen distance is 0 iff there is no camera or some camera sits at distance 0 |
| MtoonOutline.NearestWidest | crates/bevy_shader_mtoon/src/lib.rs:115-121 | dividing by the nearest distance gives the widest outline over all cameras |
| MtoonOutline.WorldWidth | crates/bevy_shader_mtoon/src/lib.rs:108-122 | world width is non-finite iff there is no camera or one at distance 0; otherwise it is the widest of the per-camera widths |

## Left out

- Asset I/O, `async` loading, ECS scheduling, queries over the world, and logging (`warn!`, `info!`) are left out. A query result is an input sequence or map. A logged warning is a skipped branch.
- Floating point is modelled as exact `real` arithmetic. `f32` rounding, NaN and the `partial_cmp` fallback to `Equal` are not modelled.
- Camera and entity positions are not modelled. The distance from each camera to an outline's entity is an input, so there is no vector length or square root.
- MtoonOutline.WorldWidth: a zero distance, or no camera at all, divides by zero. The model gives a `NonFinite` width there instead of an IEEE infinity or NaN.
- `spawn_mtoon_markers` (bevy_vrm/src/lib.rs:84-105) is not part of this model. It only copies each loaded asset's marker list onto the scene entity. `replace_mtoon_materials` takes those marker rows as input.
- Iteration order of `HashMap`s such as `named_nodes` and the asset stores is arbitrary. The model fixes one order and makes it an input sequence. "The first match" means the first match in that sequence.
- `AnimationTargetId::from_names` hashes a name path. The model identifies a target by the path itself, so two targets are equal iff their paths are.
- FirstPerson.IsChildIffAncestor: `is_child` only terminates on an acyclic parent relation. The model takes a rank map as a witness of acyclicity and does not model divergence on a cycle.
- FirstPerson.MarkHeadVertices: the source indexes skin joints and weights without checking them. The model requires well-formed skin data (every joint index in range, one weight per joint) instead of modelling those panics.
- MtoonImport.LoadMtoonShader: `texture_index(..).unwrap()` is a precondition. Every texture edge of a material property must point at a document texture, which import guarantees.
- The source files come from more than one revision of the repository, and each module models its own file as written:
  - crates/bevy_vrm/src/extensions/mod.rs calls `import_material` with three arguments, while crates/bevy_vrm/src/extensions/vrm0/mod.rs takes four. The model passes the missing texture list.
  - `RENDER_LAYERS` in crates/bevy_vrm/src/first_person.rs includes layer 0, but the table in crates/bevy_vrm/src/layers.rs does not. `Layers` models layers.rs.
  - crates/bevy_vrm/src/loader/vrm0.rs uses the flat `MtoonMaterial`. crates/bevy_vrm/src/extensions/vrm0/mod.rs uses an extended material with a separate MToon shader part.
  - The loader copies the shade shift, while the extension hook negates it (`Vrm0Loader.ShadeShiftSigns`).
- crates/gltf_kun_vrm/src/vrm0/mod.rs lacks the material-property and bone-group edges that import.rs writes. The model adds them as extra edge labels with the same list semantics.
- VrmImport.Import: the Vrm node's weight keeps only the exporter version. The `meta`, `humanoid` and `first_person` settings that crates/gltf_kun_vrm/src/vrm0/import.rs:334-341 also write into it are dropped, because no other part of the model reads them.
- VrmImport.ImportMaterialProperty: the weight drops the `tag_map` and `keyword_map` fields (import.rs:125-126), because no other part of the model reads them.
- VrmImport.ImportBlendShapeGroup: the weight drops the `material_values` list (import.rs:256), because no other part of the model reads it.
- VrmImport.ImportColliderGroup: the weight keeps only the number of colliders, where import.rs:282 stores the collider list itself, because no other part of the model reads them.
- Blend-shape groups and binds are created by import.rs but never attached to the `Vrm` node. The model keeps this as written.
- `VrmImportError::BoneGroupNotFound` is declared but never produced. `VrmImportSpec.NeverBoneGroupNotFound` states this.
- In `vrm_bone_hook`, a missing `secondaryAnimation` and missing `boneGroups` are merged into one absent bone-group list. Both skip the spring bones in the same way.
- Rendering, shader asset loading, plugin registration and GPU uniform marshalling are left out. The shader only enters through the fields the systems write.
- The spring-bone simulation, the viewer and the example programs are not part of this model.
- AnimationTargets.BoneText: the `Display` impl of `serde_vrm`'s `BoneName` is not part of this model. The model takes a bone's `to_string()` to be its JSON name (crates/serde_vrm/src/vrm0/mod.rs).

## Findings

| source | as written | input that shows it | evidently intended | confidence | as-written member | corrected member |
|---|---|---|---|---|---|---|
| bevy_vrm/src/lib.rs:419-420 | the humanoid match recognises `"leftToe"` and `"rightToe"` | a VRM 0 model whose human bones include `"leftToes"`, the name VRM 0 uses (crates/serde_vrm/src/vrm0/mod.rs:131-134) | the toes bone fills the `left_toe` slot; as written it goes into `others` and `left_toe` stays empty. The model of the hook (`HumanoidOf`, `HumanoidSpec`) keeps the match as written; `TableSpec` states the corrected table | not executed | VrmLib.AsWrittenToes | VrmLib.TableSpec |
