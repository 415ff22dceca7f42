/** The VRM 0.x loader of `crates/bevy_vrm/src/loader/vrm0.rs`: it builds a
    flat MToon material for every material property whose shader is
    `"VRM/MToon"`, records them by property index, and lists an MToon
    marker for every mesh primitive that uses one of them. Asset handles
    are identified with the labels they were obtained from. */
module Vrm0Loader {
  import opened Wrappers
  import Labels
  import opened VrmGraph
  import MtoonImport

  const MTOON_KEY: string := "VRM/MToon"
  const VRM0_NOT_FOUND: string := "VRM0 not found"

  /** `mesh_label(i)`. */
  function MeshLabel(i: nat): string {
    Labels.Label("Mesh", i)
  }

  /** `mtoon_label(i)`: `"Material"` followed by the shader key and the index. */
  function MtoonLabel(i: nat): string {
    Labels.Label("Material" + MTOON_KEY, i)
  }

  /** `texture_label(i)`. */
  function TextureLabel(i: nat): string {
    Labels.Label("Texture", i)
  }

  /** The parts of the VRM 0.x `MaterialProperty` JSON the loader reads. */
  datatype LoaderFloats = LoaderFloats(shadeShift: Option<real>, shadeToony: Option<real>)
  datatype LoaderVectors = LoaderVectors(color: Option<Rgba>, shadeColor: Option<Rgba>)
  datatype LoaderTextures = LoaderTextures(mainTex: Option<nat>, shadeTexture: Option<nat>)
  datatype MaterialProperty = MaterialProperty(shader: Option<string>, float: Option<LoaderFloats>,
                                               vector: Option<LoaderVectors>, texture: Option<LoaderTextures>)

  /** The VRM 0.x extension object, as far as the loader reads it. */
  datatype Vrm0 = Vrm0(materialProperties: Option<seq<MaterialProperty>>)

  /** The glTF as parsed: each mesh's primitives' material indices, and
      the VRM 0.x extension when the file has one. */
  datatype Primitive = Primitive(material: Option<nat>)
  datatype Mesh = Mesh(primitives: seq<Primitive>)
  datatype Gltf = Gltf(meshes: seq<Mesh>, vrm0: Option<Vrm0>)

  /** The fields of the flat `MtoonMaterial` the loader writes. */
  datatype MtoonMaterial = MtoonMaterial(baseColor: Rgba, shadeColor: Rgba, shadingShiftFactor: real,
                                         shadingToonyFactor: real, baseColorTexture: Option<string>,
                                         shadeColorTexture: Option<string>)

  /** `MtoonMaterial::default()` on those fields. */
  const DEFAULT_MATERIAL: MtoonMaterial :=
    MtoonMaterial(Rgba(1.0, 1.0, 1.0, 1.0), Rgba(0.0, 0.0, 0.0, 1.0), 0.0, 0.9, None, None)

  /** A labelled asset of the load context. */
  datatype Asset = MtoonAsset(material: MtoonMaterial) | OtherAsset

  /** `MtoonMarker`: a mesh handle, a primitive index and a material handle. */
  datatype MtoonMarker = MtoonMarker(mesh: string, primitive: nat, mtoon: string)

  class LoadContext {
    var labeled: map<string, Asset>

    constructor (labeled: map<string, Asset>)
      ensures this.labeled == labeled
    {
      this.labeled := labeled;
    }
  }

  /** The loader's output: the `Vrm` asset's MToon table, marker list and
      copied extensions. */
  class Vrm {
    var mtoonMaterials: map<nat, string>
    var mtoonMarkers: seq<MtoonMarker>
    var extensions: Option<Vrm0>

    constructor ()
      ensures mtoonMaterials == map[] && mtoonMarkers == [] && extensions == None
    {
      mtoonMaterials := map[];
      mtoonMarkers := [];
      extensions := None;
    }
  }

  predicate IsMtoon(p: MaterialProperty) {
    p.shader == Some(MTOON_KEY)
  }

  /** A texture index resolves to its label only when that label is loaded. */
  function LoadedTexture(index: Option<nat>, labeled: map<string, Asset>): Option<string> {
    if index.Some? && TextureLabel(index.value) in labeled then Some(TextureLabel(index.value)) else None
  }

  /** The material `load_mtoon` builds from `p`, given the labels loaded so far. */
  function LoadedMtoon(p: MaterialProperty, labeled: map<string, Asset>): MtoonMaterial {
    var f := p.float.GetOr(LoaderFloats(None, None));
    var v := p.vector.GetOr(LoaderVectors(None, None));
    var t := p.texture.GetOr(LoaderTextures(None, None));
    MtoonMaterial(v.color.GetOr(DEFAULT_MATERIAL.baseColor), v.shadeColor.GetOr(DEFAULT_MATERIAL.shadeColor),
                  f.shadeShift.GetOr(DEFAULT_MATERIAL.shadingShiftFactor),
                  f.shadeToony.GetOr(DEFAULT_MATERIAL.shadingToonyFactor),
                  LoadedTexture(t.mainTex, labeled), LoadedTexture(t.shadeTexture, labeled))
  }

  /** `load_mtoon`: fills a default material field by field and adds it
      under `MaterialVRM/MToon{index}`, returning that label's handle. */
  method LoadMtoon(p: MaterialProperty, index: nat, ctx: LoadContext) returns (handle: string)
    modifies ctx
    ensures handle == MtoonLabel(index)
    ensures ctx.labeled == old(ctx.labeled)[MtoonLabel(index) := MtoonAsset(LoadedMtoon(p, old(ctx.labeled)))]
  {
    var m := DEFAULT_MATERIAL;
    if p.float.Some? {
      m := LoadFloats(m, p.float.value);
    }
    if p.vector.Some? {
      m := LoadVectors(m, p.vector.value);
    }
    if p.texture.Some? {
      m := LoadTextures(m, p.texture.value, ctx.labeled);
    }
    handle := MtoonLabel(index);
    ctx.labeled := ctx.labeled[handle := MtoonAsset(m)];
  }

  method LoadFloats(m0: MtoonMaterial, f: LoaderFloats) returns (m: MtoonMaterial)
    ensures m == m0.(shadingShiftFactor := f.shadeShift.GetOr(m0.shadingShiftFactor),
                     shadingToonyFactor := f.shadeToony.GetOr(m0.shadingToonyFactor))
  {
    m := m0;
    if f.shadeShift.Some? {
      m := m.(shadingShiftFactor := f.shadeShift.value);
    }
    if f.shadeToony.Some? {
      m := m.(shadingToonyFactor := f.shadeToony.value);
    }
  }

  method LoadVectors(m0: MtoonMaterial, v: LoaderVectors) returns (m: MtoonMaterial)
    ensures m == m0.(baseColor := v.color.GetOr(m0.baseColor), shadeColor := v.shadeColor.GetOr(m0.shadeColor))
  {
    m := m0;
    if v.color.Some? {
      m := m.(baseColor := v.color.value);
    }
    if v.shadeColor.Some? {
      m := m.(shadeColor := v.shadeColor.value);
    }
  }

  method LoadTextures(m0: MtoonMaterial, t: LoaderTextures, labeled: map<string, Asset>) returns (m: MtoonMaterial)
    requires m0.baseColorTexture.None? && m0.shadeColorTexture.None?
    ensures m == m0.(baseColorTexture := LoadedTexture(t.mainTex, labeled),
                     shadeColorTexture := LoadedTexture(t.shadeTexture, labeled))
  {
    m := m0;
    if t.mainTex.Some? {
      var name := TextureLabel(t.mainTex.value);
      if name in labeled {
        m := m.(baseColorTexture := Some(name));
      }
    }
    if t.shadeTexture.Some? {
      var name := TextureLabel(t.shadeTexture.value);
      if name in labeled {
        m := m.(shadeColorTexture := Some(name));
      }
    }
  }

  /** Shade shift and toony are copied as they are, missing parameters keep
      the defaults, and a texture is attached only under a loaded label
      naming its index. */
  lemma LoadedMtoonParameters(p: MaterialProperty, labeled: map<string, Asset>)
    ensures var m := LoadedMtoon(p, labeled);
            (p.float.Some? && p.float.value.shadeShift.Some? ==> m.shadingShiftFactor == p.float.value.shadeShift.value) &&
            (p.float.Some? && p.float.value.shadeToony.Some? ==> m.shadingToonyFactor == p.float.value.shadeToony.value) &&
            (p.float.None? && p.vector.None? && p.texture.None? ==> m == DEFAULT_MATERIAL) &&
            (m.baseColorTexture.Some? <==>
               (p.texture.Some? && p.texture.value.mainTex.Some? && TextureLabel(p.texture.value.mainTex.value) in labeled)) &&
            (m.baseColorTexture.Some? ==>
               (m.baseColorTexture.value in labeled &&
                Labels.DecimalValue(m.baseColorTexture.value[|"Texture"|..]) == p.texture.value.mainTex.value))
  {
  }

  /** Loading one MToon material cannot change what a later one sees:
      material, mesh and texture labels never collide. */
  lemma LabelFamiliesDistinct(i: nat, j: nat)
    ensures MtoonLabel(i) != TextureLabel(j) && MtoonLabel(i) != MeshLabel(j) && MeshLabel(i) != TextureLabel(j)
    ensures MtoonLabel(i) == MtoonLabel(j) ==> i == j
  {
    Labels.LabelFamiliesDisjoint("Material" + MTOON_KEY, "Texture", 0, i, j);
    Labels.LabelFamiliesDisjoint("Material" + MTOON_KEY, "Mesh", 1, i, j);
    Labels.LabelFamiliesDisjoint("Mesh", "Texture", 0, i, j);
    if MtoonLabel(i) == MtoonLabel(j) {
      Labels.LabelInjective("Material" + MTOON_KEY, i, j);
    }
  }

  // ---------------------------------------------------------------------
  // load_gltf

  /** The MToon table after the material loop over `props[..n]`. */
  ghost predicate TableAfter(table: map<nat, string>, table0: map<nat, string>, props: seq<MaterialProperty>, n: nat)
    requires n <= |props|
  {
    (forall i: nat :: i in table <==> i in table0 || (i < n && IsMtoon(props[i]))) &&
    (forall i: nat :: i < n && IsMtoon(props[i]) ==> table[i] == MtoonLabel(i)) &&
    (forall i: nat :: i in table0 && !(i < n && IsMtoon(props[i])) ==> table[i] == table0[i])
  }

  /** The assets the material loop over `props[..n]` adds: each MToon
      property's material under its own label, built against the labels
      loaded before the loop. */
  function LoadedAssets(props: seq<MaterialProperty>, n: nat, labeled0: map<string, Asset>): map<string, Asset>
    requires n <= |props|
  {
    if n == 0 then map[]
    else
      var m := LoadedAssets(props, n - 1, labeled0);
      if IsMtoon(props[n - 1]) then m[MtoonLabel(n - 1) := MtoonAsset(LoadedMtoon(props[n - 1], labeled0))] else m
  }

  /** The labelled assets after the material loop over `props[..n]`: the
      assets from before the loop, with the ones it added on top. */
  ghost predicate LabelsAfter(labeled: map<string, Asset>, labeled0: map<string, Asset>, props: seq<MaterialProperty>, n: nat)
    requires n <= |props|
  {
    labeled == labeled0 + LoadedAssets(props, n, labeled0)
  }

  /** The loop adds one label per MToon property and no other, and that
      label holds the property's material. */
  lemma {:induction false} LoadedAssetsSpec(props: seq<MaterialProperty>, n: nat, labeled0: map<string, Asset>)
    requires n <= |props|
    ensures forall l :: l in LoadedAssets(props, n, labeled0) <==> exists k :: 0 <= k < n && IsMtoon(props[k]) && l == MtoonLabel(k)
    ensures forall k :: 0 <= k < n && IsMtoon(props[k]) ==>
              LoadedAssets(props, n, labeled0)[MtoonLabel(k)] == MtoonAsset(LoadedMtoon(props[k], labeled0))
  {
    if n > 0 {
      var i := n - 1;
      LoadedAssetsSpec(props, i, labeled0);
      var prev, cur := LoadedAssets(props, i, labeled0), LoadedAssets(props, n, labeled0);
      if IsMtoon(props[i]) {
        forall k | 0 <= k < i && IsMtoon(props[k])
          ensures MtoonLabel(k) != MtoonLabel(i)
        {
          LabelFamiliesDistinct(k, i);
        }
        AddedKeys(cur, prev, props, i);
        AddedValues(cur, prev, labeled0, props, i);
      } else {
        SkippedKeys(cur, prev, props, i);
      }
    }
  }

  /** The labels after MToon property i: those before, and i's own. */
  lemma AddedKeys(cur: map<string, Asset>, prev: map<string, Asset>, props: seq<MaterialProperty>, i: nat)
    requires i < |props| && IsMtoon(props[i])
    requires forall l :: l in prev <==> exists k :: 0 <= k < i && IsMtoon(props[k]) && l == MtoonLabel(k)
    requires cur.Keys == prev.Keys + {MtoonLabel(i)}
    ensures forall l :: l in cur <==> exists k :: 0 <= k < i + 1 && IsMtoon(props[k]) && l == MtoonLabel(k)
  {
    forall l
      ensures l in cur <==> exists k :: 0 <= k < i + 1 && IsMtoon(props[k]) && l == MtoonLabel(k)
    {
      if l == MtoonLabel(i) {
        assert 0 <= i < i + 1 && IsMtoon(props[i]) && l == MtoonLabel(i);
      } else if exists k :: 0 <= k < i + 1 && IsMtoon(props[k]) && l == MtoonLabel(k) {
        var k :| 0 <= k < i + 1 && IsMtoon(props[k]) && l == MtoonLabel(k);
        assert k != i;
      }
    }
  }

  /** The labels after a property that is not MToon: those before. */
  lemma SkippedKeys(cur: map<string, Asset>, prev: map<string, Asset>, props: seq<MaterialProperty>, i: nat)
    requires i < |props| && !IsMtoon(props[i])
    requires forall l :: l in prev <==> exists k :: 0 <= k < i && IsMtoon(props[k]) && l == MtoonLabel(k)
    requires cur == prev
    ensures forall l :: l in cur <==> exists k :: 0 <= k < i + 1 && IsMtoon(props[k]) && l == MtoonLabel(k)
  {
    forall l | exists k :: 0 <= k < i + 1 && IsMtoon(props[k]) && l == MtoonLabel(k)
      ensures l in cur
    {
      var k :| 0 <= k < i + 1 && IsMtoon(props[k]) && l == MtoonLabel(k);
      assert k < i;
    }
  }

  /** Every MToon property up to i holds its own material. */
  lemma AddedValues(cur: map<string, Asset>, prev: map<string, Asset>, labeled0: map<string, Asset>,
                    props: seq<MaterialProperty>, i: nat)
    requires i < |props| && IsMtoon(props[i])
    requires forall k :: 0 <= k < i && IsMtoon(props[k]) ==> MtoonLabel(k) != MtoonLabel(i)
    requires forall k :: 0 <= k < i && IsMtoon(props[k]) ==> MtoonLabel(k) in prev
    requires forall k :: 0 <= k < i && IsMtoon(props[k]) ==> prev[MtoonLabel(k)] == MtoonAsset(LoadedMtoon(props[k], labeled0))
    requires cur == prev[MtoonLabel(i) := MtoonAsset(LoadedMtoon(props[i], labeled0))]
    ensures forall k :: 0 <= k < i + 1 && IsMtoon(props[k]) ==> cur[MtoonLabel(k)] == MtoonAsset(LoadedMtoon(props[k], labeled0))
  {
  }

  /** After the loop over `props[..n]`: every MToon property's label holds
      its material, built against the labels loaded before the loop; a
      label is present iff it was before or is one of those; every other
      label keeps its asset. */
  lemma LabelsAfterSpec(labeled: map<string, Asset>, labeled0: map<string, Asset>, props: seq<MaterialProperty>, n: nat)
    requires n <= |props| && LabelsAfter(labeled, labeled0, props, n)
    ensures forall l :: l in labeled <==> l in labeled0 || exists i :: 0 <= i < n && IsMtoon(props[i]) && l == MtoonLabel(i)
    ensures forall i :: 0 <= i < n && IsMtoon(props[i]) ==> labeled[MtoonLabel(i)] == MtoonAsset(LoadedMtoon(props[i], labeled0))
    ensures forall l :: l in labeled0 && (forall i :: 0 <= i < n && IsMtoon(props[i]) ==> l != MtoonLabel(i)) ==>
              labeled[l] == labeled0[l]
  {
    LoadedAssetsSpec(props, n, labeled0);
  }

  /** The first loop of `load_gltf`. */
  method LoadMaterials(vrm: Vrm, props: seq<MaterialProperty>, ctx: LoadContext)
    modifies vrm, ctx
    ensures TableAfter(vrm.mtoonMaterials, old(vrm.mtoonMaterials), props, |props|)
    ensures LabelsAfter(ctx.labeled, old(ctx.labeled), props, |props|)
    ensures vrm.mtoonMarkers == old(vrm.mtoonMarkers) && vrm.extensions == old(vrm.extensions)
  {
    var i := 0;
    while i < |props|
      invariant 0 <= i <= |props|
      invariant TableAfter(vrm.mtoonMaterials, old(vrm.mtoonMaterials), props, i)
      invariant LabelsAfter(ctx.labeled, old(ctx.labeled), props, i)
      invariant vrm.mtoonMarkers == old(vrm.mtoonMarkers) && vrm.extensions == old(vrm.extensions)
    {
      if props[i].shader.Some? && props[i].shader.value == MTOON_KEY {
        ghost var table := vrm.mtoonMaterials;
        LoadStep(vrm, props, i, ctx, old(ctx.labeled));
        TableStep(table, old(vrm.mtoonMaterials), props, i);
      } else {
        SkipStep(vrm.mtoonMaterials, old(vrm.mtoonMaterials), ctx.labeled, old(ctx.labeled), props, i);
      }
      i := i + 1;
    }
  }

  lemma TableStep(table: map<nat, string>, table0: map<nat, string>, props: seq<MaterialProperty>, i: nat)
    requires i < |props| && IsMtoon(props[i]) && TableAfter(table, table0, props, i)
    ensures TableAfter(table[i := MtoonLabel(i)], table0, props, i + 1)
  {
  }

  /** A property whose shader is not MToon changes nothing. */
  lemma SkipStep(table: map<nat, string>, table0: map<nat, string>, labeled: map<string, Asset>,
                 labeled0: map<string, Asset>, props: seq<MaterialProperty>, i: nat)
    requires i < |props| && !IsMtoon(props[i])
    requires TableAfter(table, table0, props, i) && LabelsAfter(labeled, labeled0, props, i)
    ensures TableAfter(table, table0, props, i + 1) && LabelsAfter(labeled, labeled0, props, i + 1)
  {
    assert forall k :: 0 <= k < i + 1 && IsMtoon(props[k]) ==> k < i;
    assert LoadedAssets(props, i + 1, labeled0) == LoadedAssets(props, i, labeled0);
  }

  /** One MToon property of the first loop. */
  method LoadStep(vrm: Vrm, props: seq<MaterialProperty>, i: nat, ctx: LoadContext, ghost labeled0: map<string, Asset>)
    modifies vrm, ctx
    requires i < |props| && IsMtoon(props[i])
    requires LabelsAfter(ctx.labeled, labeled0, props, i)
    ensures LabelsAfter(ctx.labeled, labeled0, props, i + 1)
    ensures vrm.mtoonMaterials == old(vrm.mtoonMaterials)[i := MtoonLabel(i)]
    ensures vrm.mtoonMarkers == old(vrm.mtoonMarkers) && vrm.extensions == old(vrm.extensions)
  {
    ghost var before := ctx.labeled;
    LoadedAgrees(before, labeled0, props, i, props[i]);
    var handle := LoadMtoon(props[i], i, ctx);
    vrm.mtoonMaterials := vrm.mtoonMaterials[i := handle];
    LabelsStep(ctx.labeled, before, labeled0, props, i);
  }

  /** Adding property i's material under its own label extends the label
      invariant by one property. */
  lemma LabelsStep(labeled: map<string, Asset>, before: map<string, Asset>, labeled0: map<string, Asset>,
                   props: seq<MaterialProperty>, i: nat)
    requires i < |props| && IsMtoon(props[i])
    requires LabelsAfter(before, labeled0, props, i)
    requires labeled == before[MtoonLabel(i) := MtoonAsset(LoadedMtoon(props[i], labeled0))]
    ensures LabelsAfter(labeled, labeled0, props, i + 1)
  {
    UnionUpdate(labeled0, LoadedAssets(props, i, labeled0), MtoonLabel(i), MtoonAsset(LoadedMtoon(props[i], labeled0)));
  }

  /** Updating a union updates its right-hand side. */
  lemma UnionUpdate(a: map<string, Asset>, b: map<string, Asset>, k: string, v: Asset)
    ensures (a + b)[k := v] == a + b[k := v]
  {
  }

  /** Before property `i` is loaded, its material sees the same texture
      labels as before the loop. */
  lemma LoadedAgrees(labeled: map<string, Asset>, labeled0: map<string, Asset>, props: seq<MaterialProperty>, n: nat, p: MaterialProperty)
    requires n <= |props| && LabelsAfter(labeled, labeled0, props, n)
    ensures LoadedMtoon(p, labeled) == LoadedMtoon(p, labeled0)
  {
    var t := p.texture.GetOr(LoaderTextures(None, None));
    if t.mainTex.Some? {
      TextureLabelAgrees(labeled, labeled0, props, n, t.mainTex.value);
    }
    if t.shadeTexture.Some? {
      TextureLabelAgrees(labeled, labeled0, props, n, t.shadeTexture.value);
    }
  }

  lemma TextureLabelAgrees(labeled: map<string, Asset>, labeled0: map<string, Asset>, props: seq<MaterialProperty>, n: nat, j: nat)
    requires n <= |props| && LabelsAfter(labeled, labeled0, props, n)
    ensures TextureLabel(j) in labeled <==> TextureLabel(j) in labeled0
  {
    LoadedAssetsSpec(props, n, labeled0);
    forall i | 0 <= i < n
      ensures TextureLabel(j) != MtoonLabel(i)
    {
      LabelFamiliesDistinct(i, j);
    }
  }

  /** The markers one mesh contributes, primitive by primitive. */
  function PrimitiveMarkers(prims: seq<Primitive>, meshIndex: nat, table: map<nat, string>, labeled: map<string, Asset>): seq<MtoonMarker>
  {
    if |prims| == 0 then []
    else
      var n := |prims| - 1;
      var p := prims[n];
      PrimitiveMarkers(prims[..n], meshIndex, table, labeled) +
      (if p.material.Some? && p.material.value in table && MeshLabel(meshIndex) in labeled
       then [MtoonMarker(MeshLabel(meshIndex), n, table[p.material.value])] else [])
  }

  /** The markers of the first `n` meshes, mesh by mesh. */
  function Markers(meshes: seq<Mesh>, n: nat, table: map<nat, string>, labeled: map<string, Asset>): seq<MtoonMarker>
    requires n <= |meshes|
  {
    if n == 0 then []
    else Markers(meshes, n - 1, table, labeled) + PrimitiveMarkers(meshes[n - 1].primitives, n - 1, table, labeled)
  }

  /** The second loop of `load_gltf`: one pass over each mesh's primitives. */
  method CreateMarkers(vrm: Vrm, meshes: seq<Mesh>, labeled: map<string, Asset>)
    modifies vrm
    ensures vrm.mtoonMarkers == old(vrm.mtoonMarkers) + Markers(meshes, |meshes|, vrm.mtoonMaterials, labeled)
    ensures vrm.mtoonMaterials == old(vrm.mtoonMaterials) && vrm.extensions == old(vrm.extensions)
  {
    var table := vrm.mtoonMaterials;
    ghost var markers0, extensions0 := vrm.mtoonMarkers, vrm.extensions;
    var m := 0;
    while m < |meshes|
      invariant 0 <= m <= |meshes|
      invariant vrm.mtoonMarkers == markers0 + Markers(meshes, m, table, labeled)
      invariant vrm.mtoonMaterials == table && vrm.extensions == extensions0
    {
      MeshMarkers(vrm, meshes[m].primitives, m, labeled);
      m := m + 1;
    }
  }

  /** The inner loop of the marker pass: the primitives of mesh `m`. */
  method MeshMarkers(vrm: Vrm, prims: seq<Primitive>, m: nat, labeled: map<string, Asset>)
    modifies vrm
    ensures vrm.mtoonMarkers == old(vrm.mtoonMarkers) + PrimitiveMarkers(prims, m, vrm.mtoonMaterials, labeled)
    ensures vrm.mtoonMaterials == old(vrm.mtoonMaterials) && vrm.extensions == old(vrm.extensions)
  {
    var table := vrm.mtoonMaterials;
    var meshLabel := MeshLabel(m);
    var p := 0;
    while p < |prims|
      invariant 0 <= p <= |prims|
      invariant vrm.mtoonMarkers == old(vrm.mtoonMarkers) + PrimitiveMarkers(prims[..p], m, table, labeled)
      invariant vrm.mtoonMaterials == table && vrm.extensions == old(vrm.extensions)
    {
      assert prims[..p + 1][..p] == prims[..p];
      var material := prims[p].material;
      if material.Some? && material.value in table && meshLabel in labeled {
        vrm.mtoonMarkers := vrm.mtoonMarkers + [MtoonMarker(meshLabel, p, table[material.value])];
      }
      p := p + 1;
    }
    assert prims[..p] == prims;
  }

  /** `load_gltf`: fails without the VRM 0.x extension; otherwise loads the
      MToon materials, lists the markers and copies the extensions. */
  method LoadGltf(vrm: Vrm, gltf: Gltf, ctx: LoadContext) returns (r: Result<(), string>)
    modifies vrm, ctx
    ensures r.Err? <==> gltf.vrm0.None?
    ensures r.Err? ==> r.error == VRM0_NOT_FOUND && vrm.mtoonMaterials == old(vrm.mtoonMaterials) &&
                       vrm.mtoonMarkers == old(vrm.mtoonMarkers) && vrm.extensions == old(vrm.extensions) &&
                       ctx.labeled == old(ctx.labeled)
    ensures r.Ok? ==> var props := gltf.vrm0.value.materialProperties.GetOr([]);
                      TableAfter(vrm.mtoonMaterials, old(vrm.mtoonMaterials), props, |props|) &&
                      LabelsAfter(ctx.labeled, old(ctx.labeled), props, |props|) &&
                      vrm.mtoonMarkers == old(vrm.mtoonMarkers) + Markers(gltf.meshes, |gltf.meshes|, vrm.mtoonMaterials, ctx.labeled) &&
                      vrm.extensions == gltf.vrm0
  {
    if gltf.vrm0.None? {
      return Err(VRM0_NOT_FOUND);
    }
    var props := gltf.vrm0.value.materialProperties.GetOr([]);
    LoadMaterials(vrm, props, ctx);
    CreateMarkers(vrm, gltf.meshes, ctx.labeled);
    vrm.extensions := gltf.vrm0;
    r := Ok(());
  }

  /** A marker is listed iff its mesh label is loaded and the primitive's
      material has an MToon entry; it then records that mesh label, the
      primitive's index within its mesh and the entry's handle. */
  lemma {:induction false} PrimitiveMarkersSpec(prims: seq<Primitive>, meshIndex: nat, table: map<nat, string>,
                                                labeled: map<string, Asset>, mk: MtoonMarker)
    ensures mk in PrimitiveMarkers(prims, meshIndex, table, labeled) <==>
              mk.mesh == MeshLabel(meshIndex) && MeshLabel(meshIndex) in labeled && mk.primitive < |prims| &&
              prims[mk.primitive].material.Some? && prims[mk.primitive].material.value in table &&
              mk.mtoon == table[prims[mk.primitive].material.value]
  {
    if |prims| > 0 {
      var n := |prims| - 1;
      PrimitiveMarkersSpec(prims[..n], meshIndex, table, labeled, mk);
    }
  }

  /** Marker `mk` belongs to mesh `m`: that mesh is loaded and its
      primitive `mk.primitive` uses a material with an MToon entry. */
  predicate MarkerOf(meshes: seq<Mesh>, m: nat, table: map<nat, string>, labeled: map<string, Asset>, mk: MtoonMarker)
    requires m < |meshes|
  {
    var prims := meshes[m].primitives;
    mk.mesh == MeshLabel(m) && MeshLabel(m) in labeled && mk.primitive < |prims| &&
    prims[mk.primitive].material.Some? && prims[mk.primitive].material.value in table &&
    mk.mtoon == table[prims[mk.primitive].material.value]
  }

  /** The marker list names exactly the (mesh, primitive) pairs whose mesh
      is loaded and whose material has an MToon entry, with that entry's
      handle. */
  lemma {:induction false} MarkersSpec(meshes: seq<Mesh>, n: nat, table: map<nat, string>,
                                       labeled: map<string, Asset>, mk: MtoonMarker)
    requires n <= |meshes|
    ensures mk in Markers(meshes, n, table, labeled) <==> exists m :: 0 <= m < n && MarkerOf(meshes, m, table, labeled, mk)
  {
    if n > 0 {
      var front := Markers(meshes, n - 1, table, labeled);
      var back := PrimitiveMarkers(meshes[n - 1].primitives, n - 1, table, labeled);
      MarkersSpec(meshes, n - 1, table, labeled, mk);
      MeshMarkersSpec(meshes, n - 1, table, labeled, mk);
      assert Markers(meshes, n, table, labeled) == front + back;
      assert mk in front + back <==> mk in front || mk in back;
      if mk in back {
        assert MarkerOf(meshes, n - 1, table, labeled, mk);
      } else if mk !in front {
        forall m | 0 <= m < n
          ensures !MarkerOf(meshes, m, table, labeled, mk)
        {
          if m == n - 1 {
            assert !MarkerOf(meshes, n - 1, table, labeled, mk);
          }
        }
      }
    }
  }

  /** One mesh's markers are those belonging to it. */
  lemma MeshMarkersSpec(meshes: seq<Mesh>, m: nat, table: map<nat, string>, labeled: map<string, Asset>, mk: MtoonMarker)
    requires m < |meshes|
    ensures mk in PrimitiveMarkers(meshes[m].primitives, m, table, labeled) <==> MarkerOf(meshes, m, table, labeled, mk)
  {
    PrimitiveMarkersSpec(meshes[m].primitives, m, table, labeled, mk);
  }

  /** Each mesh label names one mesh, so a marker belongs to one mesh only. */
  lemma MarkerMeshUnique(meshes: seq<Mesh>, m1: nat, m2: nat, table: map<nat, string>, labeled: map<string, Asset>, mk: MtoonMarker)
    requires m1 < |meshes| && m2 < |meshes|
    requires MarkerOf(meshes, m1, table, labeled, mk) && MarkerOf(meshes, m2, table, labeled, mk)
    ensures m1 == m2
  {
    Labels.LabelInjective("Mesh", m1, m2);
  }

  /** The two MToon paths disagree on the sign of the shading shift: this
      loader copies `_ShadeShift`, the import hook negates it. */
  lemma ShadeShiftSigns(p: MaterialProperty, labeled: map<string, Asset>, g: PropertyGraph, textures: seq<NodeId>,
                        standard: MtoonImport.StandardMaterial, mp: NodeId)
    requires p.float.Some? && p.float.value.shadeShift.Some?
    requires MtoonImport.TexturesIndexed(g, textures, mp)
    requires MtoonImport.ReadProperty(g, mp).float.shadeShift == p.float.value.shadeShift
    ensures LoadedMtoon(p, labeled).shadingShiftFactor ==
            -MtoonImport.MtoonFor(g, textures, standard, mp).extension.shadingShiftFactor
    ensures p.float.value.shadeShift.value != 0.0 ==>
              LoadedMtoon(p, labeled).shadingShiftFactor != MtoonImport.MtoonFor(g, textures, standard, mp).extension.shadingShiftFactor
  {
  }
}
