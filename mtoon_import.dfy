/** The VRM 0.x MToon material hooks of
    `crates/bevy_vrm/src/extensions/vrm0/mod.rs`: `import_material` builds
    one labelled MToon material per material property bound to the glTF
    material, `import_primitive_material` swaps a primitive's material for
    that labelled MToon material, and `load_mtoon_shader` maps the
    property's parameters onto the material. Asset handles are identified
    with the labels they were obtained from. */
module MtoonImport {
  import opened Wrappers
  import opened VrmGraph
  import Labels

  const WHITE: Rgba := Rgba(1.0, 1.0, 1.0, 1.0)
  const BLACK: Rgba := Rgba(0.0, 0.0, 0.0, 1.0)

  /** `mtoon_label(i)`. */
  function MtoonLabel(i: nat): string {
    Labels.Label("MaterialMtoon", i)
  }

  /** `texture_label(i)`. */
  function TextureLabel(i: nat): string {
    Labels.Label("Texture", i)
  }

  /** The `StandardMaterial` fields the import writes; the rest of the
      cloned material is carried along unchanged and not modelled. */
  datatype StandardMaterial = StandardMaterial(baseColor: Rgba, baseColorTexture: Option<string>,
                                               normalMapTexture: Option<string>, emissiveTexture: Option<string>)

  /** The `MtoonShader` fields the import writes. */
  datatype MtoonShader = MtoonShader(giEqualizationFactor: real, shadingShiftFactor: real, shadingToonyFactor: real,
                                     shadeFactor: Rgba, shadeMultiplyTexture: Option<string>)

  /** `MtoonShader::default()` on those fields. */
  const DEFAULT_SHADER: MtoonShader := MtoonShader(0.9, 0.0, 0.9, BLACK, None)

  /** `ExtendedMaterial { base, extension }`. */
  datatype MtoonMaterial = MtoonMaterial(base: StandardMaterial, extension: MtoonShader)

  /** A labelled asset of the load context: an MToon material or anything else. */
  datatype LabeledAsset = MtoonAsset(material: MtoonMaterial) | OtherAsset

  /** The labelled assets of the `LoadContext`. */
  class LoadContext {
    var labeled: map<string, LabeledAsset>

    constructor (labeled: map<string, LabeledAsset>)
      ensures this.labeled == labeled
    {
      this.labeled := labeled;
    }
  }

  /** `material_property.read(graph)`: the property's weight, or the
      default weight when the node holds none. */
  function ReadProperty(g: PropertyGraph, mp: NodeId): (w: Weight)
    reads g
    ensures w.MaterialPropertyWeight?
  {
    if mp < |g.weights| && g.weights[mp].MaterialPropertyWeight? then g.weights[mp]
    else MaterialPropertyWeight(None, None, None, NO_FLOATS, NO_VECTORS)
  }

  /** `position(..)` / `texture_index(..)`: where `t` first occurs. */
  function IndexOf(ts: seq<NodeId>, t: NodeId): (r: Option<nat>)
    ensures r.None? <==> t !in ts
    ensures r.Some? ==> r.value < |ts| && ts[r.value] == t && forall k :: 0 <= k < r.value ==> ts[k] != t
  {
    if |ts| == 0 then None
    else if ts[0] == t then Some(0)
    else match IndexOf(ts[1..], t)
      case None => None
      case Some(k) =>
        assert forall j :: 1 <= j < |ts| ==> ts[j] == ts[1..][j - 1];
        Some(k + 1)
  }

  /** The texture edge `slot` of `mp` is absent or points at a document
      texture (`texture_index(..).unwrap()` does not panic). */
  predicate SlotIndexed(g: PropertyGraph, textures: seq<NodeId>, mp: NodeId, slot: VrmGraph.Label)
    reads g
  {
    g.Property(mp, slot).Some? ==> g.Property(mp, slot).value in textures
  }

  predicate TexturesIndexed(g: PropertyGraph, textures: seq<NodeId>, mp: NodeId)
    reads g
  {
    SlotIndexed(g, textures, mp, MAIN_TEXTURE) && SlotIndexed(g, textures, mp, BUMP_MAP) &&
    SlotIndexed(g, textures, mp, EMISSION_MAP) && SlotIndexed(g, textures, mp, SHADE_TEXTURE)
  }

  /** The label handle of the texture a slot points at, when it has one. */
  function SlotLabel(g: PropertyGraph, textures: seq<NodeId>, mp: NodeId, slot: VrmGraph.Label): (r: Option<string>)
    reads g
    requires SlotIndexed(g, textures, mp, slot)
  {
    match g.Property(mp, slot)
    case None => None
    case Some(t) => Some(TextureLabel(IndexOf(textures, t).value))
  }

  /** The first value if present, else the second. */
  function Or<T>(a: Option<T>, b: Option<T>): Option<T> {
    if a.Some? then a else b
  }

  /** The cloned standard material with colour and textures overridden
      where the property has them. */
  function BaseFor(g: PropertyGraph, textures: seq<NodeId>, standard: StandardMaterial, mp: NodeId): StandardMaterial
    reads g
    requires TexturesIndexed(g, textures, mp)
  {
    StandardMaterial(ReadProperty(g, mp).vector.color.GetOr(standard.baseColor),
                     Or(SlotLabel(g, textures, mp, MAIN_TEXTURE), standard.baseColorTexture),
                     Or(SlotLabel(g, textures, mp, BUMP_MAP), standard.normalMapTexture),
                     Or(SlotLabel(g, textures, mp, EMISSION_MAP), standard.emissiveTexture))
  }

  /** The default shader with every parameter the property has mapped in. */
  function ShaderFor(g: PropertyGraph, textures: seq<NodeId>, mp: NodeId): MtoonShader
    reads g
    requires TexturesIndexed(g, textures, mp)
  {
    var w := ReadProperty(g, mp);
    MtoonShader(if w.float.indirectLightIntensity.Some? then 1.0 - w.float.indirectLightIntensity.value
                else DEFAULT_SHADER.giEqualizationFactor,
                if w.float.shadeShift.Some? then -w.float.shadeShift.value else DEFAULT_SHADER.shadingShiftFactor,
                w.float.shadeToony.GetOr(DEFAULT_SHADER.shadingToonyFactor),
                w.vector.shadeColor.GetOr(DEFAULT_SHADER.shadeFactor),
                SlotLabel(g, textures, mp, SHADE_TEXTURE))
  }

  /** The material `load_mtoon_shader` produces. */
  function MtoonFor(g: PropertyGraph, textures: seq<NodeId>, standard: StandardMaterial, mp: NodeId): MtoonMaterial
    reads g
    requires TexturesIndexed(g, textures, mp)
  {
    MtoonMaterial(BaseFor(g, textures, standard, mp), ShaderFor(g, textures, mp))
  }

  /** `texture_index(..)` followed by `texture_label`. */
  method TextureHandle(textures: seq<NodeId>, t: NodeId) returns (handle: string)
    requires t in textures
    ensures handle == TextureLabel(IndexOf(textures, t).value)
  {
    var i := 0;
    while textures[i] != t
      invariant 0 <= i < |textures| && t in textures[i..]
      invariant forall k :: 0 <= k < i ==> textures[k] != t
      decreases |textures| - i
    {
      i := i + 1;
    }
    handle := TextureLabel(i);
  }

  /** The texture handle of one slot, or `current` when the slot is empty. */
  method SlotHandle(g: PropertyGraph, textures: seq<NodeId>, mp: NodeId, slot: VrmGraph.Label, current: Option<string>)
    returns (r: Option<string>)
    requires SlotIndexed(g, textures, mp, slot)
    ensures r == Or(SlotLabel(g, textures, mp, slot), current)
  {
    r := current;
    var t := g.Property(mp, slot);
    if t.Some? {
      var l := TextureHandle(textures, t.value);
      r := Some(l);
    }
  }

  /** The base-material half of `load_mtoon_shader`. */
  method LoadBase(g: PropertyGraph, textures: seq<NodeId>, standard: StandardMaterial, mp: NodeId)
    returns (base: StandardMaterial)
    requires TexturesIndexed(g, textures, mp)
    ensures base == BaseFor(g, textures, standard, mp)
  {
    var w := ReadProperty(g, mp);
    var color := standard.baseColor;
    if w.vector.color.Some? {
      color := w.vector.color.value;
    }
    var main := SlotHandle(g, textures, mp, MAIN_TEXTURE, standard.baseColorTexture);
    var bump := SlotHandle(g, textures, mp, BUMP_MAP, standard.normalMapTexture);
    var emission := SlotHandle(g, textures, mp, EMISSION_MAP, standard.emissiveTexture);
    base := StandardMaterial(color, main, bump, emission);
  }

  /** The shader half of `load_mtoon_shader`. */
  method LoadShader(g: PropertyGraph, textures: seq<NodeId>, mp: NodeId) returns (shader: MtoonShader)
    requires TexturesIndexed(g, textures, mp)
    ensures shader == ShaderFor(g, textures, mp)
  {
    var w := ReadProperty(g, mp);
    shader := DEFAULT_SHADER;
    if w.float.indirectLightIntensity.Some? {
      shader := shader.(giEqualizationFactor := 1.0 - w.float.indirectLightIntensity.value);
    }
    if w.float.shadeShift.Some? {
      shader := shader.(shadingShiftFactor := -w.float.shadeShift.value);
    }
    if w.float.shadeToony.Some? {
      shader := shader.(shadingToonyFactor := w.float.shadeToony.value);
    }
    if w.vector.shadeColor.Some? {
      shader := shader.(shadeFactor := w.vector.shadeColor.value);
    }
    var shade := SlotHandle(g, textures, mp, SHADE_TEXTURE, None);
    shader := shader.(shadeMultiplyTexture := shade);
  }

  /** `load_mtoon_shader`. */
  method LoadMtoonShader(g: PropertyGraph, textures: seq<NodeId>, standard: StandardMaterial, mp: NodeId)
    returns (base: StandardMaterial, shader: MtoonShader)
    requires TexturesIndexed(g, textures, mp)
    ensures MtoonMaterial(base, shader) == MtoonFor(g, textures, standard, mp)
  {
    base := LoadBase(g, textures, standard, mp);
    shader := LoadShader(g, textures, mp);
  }

  /** The parameter mapping: indirect light intensity and the GI
      equalisation factor add up to one, the shading shift is the negated
      shade shift, the toony factor is copied, and every parameter the
      property leaves out keeps its default. A texture handle names the
      texture's position in the document. */
  lemma MtoonParameters(g: PropertyGraph, textures: seq<NodeId>, standard: StandardMaterial, mp: NodeId)
    requires TexturesIndexed(g, textures, mp)
    ensures var f := ReadProperty(g, mp).float;
            var s := MtoonFor(g, textures, standard, mp).extension;
            (f.indirectLightIntensity.Some? ==> s.giEqualizationFactor + f.indirectLightIntensity.value == 1.0) &&
            (f.shadeShift.Some? ==> s.shadingShiftFactor + f.shadeShift.value == 0.0) &&
            (f.shadeToony.Some? ==> s.shadingToonyFactor == f.shadeToony.value) &&
            (f == NO_FLOATS && ReadProperty(g, mp).vector == NO_VECTORS && g.Property(mp, SHADE_TEXTURE).None? ==>
               s == DEFAULT_SHADER)
    ensures MtoonFor(g, textures, standard, mp).base.baseColorTexture.Some? ==>
              MtoonFor(g, textures, standard, mp).base.baseColorTexture == standard.baseColorTexture ||
              exists i :: 0 <= i < |textures| && textures[i] == g.Property(mp, MAIN_TEXTURE).value &&
                          MtoonFor(g, textures, standard, mp).base.baseColorTexture == Some(TextureLabel(i))
  {
    var m := MtoonFor(g, textures, standard, mp);
    if g.Property(mp, MAIN_TEXTURE).Some? {
      var i := IndexOf(textures, g.Property(mp, MAIN_TEXTURE).value).value;
      assert m.base.baseColorTexture == Some(TextureLabel(i));
    }
  }

  /** MToon labels and texture labels never collide, and a label names
      one property index. */
  lemma LabelsDistinct(i: nat, j: nat)
    ensures MtoonLabel(i) != TextureLabel(j)
    ensures MtoonLabel(i) == MtoonLabel(j) <==> i == j
    ensures TextureLabel(i) == TextureLabel(j) <==> i == j
  {
    Labels.LabelFamiliesDisjoint("MaterialMtoon", "Texture", 0, i, j);
    if MtoonLabel(i) == MtoonLabel(j) {
      Labels.LabelInjective("MaterialMtoon", i, j);
    }
    if TextureLabel(i) == TextureLabel(j) {
      Labels.LabelInjective("Texture", i, j);
    }
  }

  // ---------------------------------------------------------------------
  // import_material

  /** `ext.material_properties(graph)`. */
  function MaterialPropertyNodes(g: PropertyGraph, vrm: NodeId): seq<NodeId>
    reads g
  {
    g.Properties(vrm, VrmMaterialProperty)
  }

  /** Property `mp` is bound to `material` and asks for the MToon shader. */
  predicate Selected(g: PropertyGraph, mp: NodeId, material: NodeId)
    reads g
  {
    g.Property(mp, MaterialPropertyMaterial) == Some(material) && ReadProperty(g, mp).shader == Some(MToon)
  }

  /** The labelled asset property `i` asks for, if any. */
  function Requested(g: PropertyGraph, textures: seq<NodeId>, standard: StandardMaterial, material: NodeId,
                     props: seq<NodeId>, i: nat): Option<(string, LabeledAsset)>
    reads g
    requires i < |props| && TexturesIndexed(g, textures, props[i])
  {
    if Selected(g, props[i], material)
    then Some((MtoonLabel(i), MtoonAsset(MtoonFor(g, textures, standard, props[i]))))
    else None
  }

  /** `add_loaded_labeled_asset` guarded by `has_labeled_asset`: a label
      already present is kept. */
  function PutAbsent<K, V>(m: map<K, V>, e: Option<(K, V)>): map<K, V> {
    if e.Some? && e.value.0 !in m then m[e.value.0 := e.value.1] else m
  }

  function AddAbsent<K, V>(m: map<K, V>, es: seq<Option<(K, V)>>): map<K, V> {
    if |es| == 0 then m else PutAbsent(AddAbsent(m, es[..|es| - 1]), es[|es| - 1])
  }

  lemma AddAbsentAppend<K, V>(m: map<K, V>, es: seq<Option<(K, V)>>, e: Option<(K, V)>)
    ensures AddAbsent(m, es + [e]) == PutAbsent(AddAbsent(m, es), e)
  {
    assert (es + [e])[..|es|] == es;
  }

  /** The requests of the first `n` properties, in order. */
  function Requests(g: PropertyGraph, textures: seq<NodeId>, standard: StandardMaterial, material: NodeId,
                    props: seq<NodeId>, n: nat): (es: seq<Option<(string, LabeledAsset)>>)
    reads g
    requires n <= |props| && forall k :: 0 <= k < |props| ==> TexturesIndexed(g, textures, props[k])
    ensures |es| == n
  {
    if n == 0 then [] else Requests(g, textures, standard, material, props, n - 1) + [Requested(g, textures, standard, material, props, n - 1)]
  }

  /** The k-th request is property k's own request. */
  lemma {:induction false} RequestsAt(g: PropertyGraph, textures: seq<NodeId>, standard: StandardMaterial, material: NodeId,
                                      props: seq<NodeId>, n: nat, k: nat)
    requires n <= |props| && forall j :: 0 <= j < |props| ==> TexturesIndexed(g, textures, props[j])
    requires k < n
    ensures Requests(g, textures, standard, material, props, n)[k] == Requested(g, textures, standard, material, props, k)
  {
    if k < n - 1 {
      RequestsAt(g, textures, standard, material, props, n - 1, k);
    }
  }

  /** `import_material`: walks the Vrm's material properties in order and
      adds, under `MaterialMtoon{i}`, the MToon material of every property
      bound to `material` whose shader is MToon, unless that label exists. */
  method ImportMaterial(g: PropertyGraph, textures: seq<NodeId>, vrm: NodeId, ctx: LoadContext,
                        standard: StandardMaterial, material: NodeId)
    modifies ctx
    requires forall k :: 0 <= k < |MaterialPropertyNodes(g, vrm)| ==> TexturesIndexed(g, textures, MaterialPropertyNodes(g, vrm)[k])
    ensures ctx.labeled == AddAbsent(old(ctx.labeled), Requests(g, textures, standard, material, MaterialPropertyNodes(g, vrm), |MaterialPropertyNodes(g, vrm)|))
  {
    var props := MaterialPropertyNodes(g, vrm);
    ghost var labeled0 := ctx.labeled;
    var i := 0;
    while i < |props|
      invariant 0 <= i <= |props|
      invariant ctx.labeled == AddAbsent(labeled0, Requests(g, textures, standard, material, props, i))
    {
      AddAbsentAppend(labeled0, Requests(g, textures, standard, material, props, i),
                      Requested(g, textures, standard, material, props, i));
      ImportMaterialProperty(g, textures, ctx, standard, material, props, i);
      i := i + 1;
    }
  }

  /** One iteration of `import_material`: property `i` adds its MToon
      material unless its label exists. */
  method ImportMaterialProperty(g: PropertyGraph, textures: seq<NodeId>, ctx: LoadContext,
                                standard: StandardMaterial, material: NodeId, props: seq<NodeId>, i: nat)
    modifies ctx
    requires i < |props| && forall k :: 0 <= k < |props| ==> TexturesIndexed(g, textures, props[k])
    ensures ctx.labeled == PutAbsent(old(ctx.labeled), Requested(g, textures, standard, material, props, i))
  {
    var mp := props[i];
    var m := g.Property(mp, MaterialPropertyMaterial);
    if m.Some? && m.value == material {
      var w := ReadProperty(g, mp);
      if w.shader == Some(MToon) {
        var name := MtoonLabel(i);
        if name !in ctx.labeled {
          var base, shader := LoadMtoonShader(g, textures, standard, mp);
          ctx.labeled := ctx.labeled[name := MtoonAsset(MtoonMaterial(base, shader))];
        }
      }
    }
  }

  /** First writer wins: a label is present afterwards iff it was before
      or some entry requests it; a label present before keeps its asset,
      and a new label holds the asset of the first entry requesting it. */
  lemma {:induction false} AddAbsentSpec<K, V>(m: map<K, V>, es: seq<Option<(K, V)>>, key: K)
    ensures key in AddAbsent(m, es) <==> key in m || exists i :: 0 <= i < |es| && es[i].Some? && es[i].value.0 == key
    ensures key in m ==> AddAbsent(m, es)[key] == m[key]
    ensures key !in m ==> forall i :: 0 <= i < |es| && es[i].Some? && es[i].value.0 == key &&
                                      (forall j :: 0 <= j < i ==> !(es[j].Some? && es[j].value.0 == key)) ==>
                                        AddAbsent(m, es)[key] == es[i].value.1
  {
    if |es| > 0 {
      var p := es[..|es| - 1];
      AddAbsentSpec(m, p, key);
      assert forall i :: 0 <= i < |p| ==> p[i] == es[i];
    }
  }

  /** Each property index gets at most one MToon asset, an existing label
      is never replaced, and a new `MaterialMtoon{i}` label holds the
      material built from property `i`, which is bound to `material` and
      asks for MToon. */
  lemma ImportMaterialAddsOnce(g: PropertyGraph, textures: seq<NodeId>, standard: StandardMaterial, material: NodeId,
                               props: seq<NodeId>, old0: map<string, LabeledAsset>, i: nat)
    requires i < |props| && forall k :: 0 <= k < |props| ==> TexturesIndexed(g, textures, props[k])
    ensures var after := AddAbsent(old0, Requests(g, textures, standard, material, props, |props|));
            (MtoonLabel(i) in after <==> MtoonLabel(i) in old0 || Selected(g, props[i], material)) &&
            (MtoonLabel(i) in old0 ==> after[MtoonLabel(i)] == old0[MtoonLabel(i)]) &&
            (MtoonLabel(i) !in old0 && Selected(g, props[i], material) ==>
               after[MtoonLabel(i)] == MtoonAsset(MtoonFor(g, textures, standard, props[i])))
  {
    var es := Requests(g, textures, standard, material, props, |props|);
    AddAbsentSpec(old0, es, MtoonLabel(i));
    forall k | 0 <= k < |es| && es[k].Some? && es[k].value.0 == MtoonLabel(i)
      ensures k == i
    {
      RequestsAt(g, textures, standard, material, props, |props|, k);
      LabelsDistinct(k, i);
    }
    RequestsAt(g, textures, standard, material, props, |props|, i);
  }

  // ---------------------------------------------------------------------
  // import_primitive_material

  /** The material component of a mesh entity. */
  datatype MeshMaterial = StandardHandle(id: nat) | MtoonHandle(name: string)

  /** The components `import_primitive_material` writes. */
  class PrimitiveEntity {
    var material: MeshMaterial
    var outlineSync: bool

    constructor (material: MeshMaterial)
      ensures this.material == material && !outlineSync
    {
      this.material := material;
      outlineSync := false;
    }
  }

  /** The MToon label property `i` swaps in for a primitive with material
      `pm`: it must be bound to `pm`, ask for MToon, and its label must
      already exist. */
  function SwapFor(g: PropertyGraph, labeled: map<string, LabeledAsset>, pm: NodeId, props: seq<NodeId>, i: nat): Option<string>
    reads g
    requires i < |props|
  {
    if Selected(g, props[i], pm) && MtoonLabel(i) in labeled then Some(MtoonLabel(i)) else None
  }

  /** The last present value, if any. */
  function Last<T>(es: seq<Option<T>>): Option<T> {
    if |es| == 0 then None
    else if es[|es| - 1].Some? then es[|es| - 1]
    else Last(es[..|es| - 1])
  }

  lemma LastAppend<T>(es: seq<Option<T>>, e: Option<T>)
    ensures Last(es + [e]) == if e.Some? then e else Last(es)
  {
    assert (es + [e])[..|es|] == es;
  }

  function Swaps(g: PropertyGraph, labeled: map<string, LabeledAsset>, pm: NodeId, props: seq<NodeId>, n: nat): (es: seq<Option<string>>)
    reads g
    requires n <= |props|
    ensures |es| == n
  {
    if n == 0 then [] else Swaps(g, labeled, pm, props, n - 1) + [SwapFor(g, labeled, pm, props, n - 1)]
  }

  /** The k-th swap is property k's own swap. */
  lemma {:induction false} SwapsAt(g: PropertyGraph, labeled: map<string, LabeledAsset>, pm: NodeId, props: seq<NodeId>,
                                   n: nat, k: nat)
    requires n <= |props| && k < n
    ensures Swaps(g, labeled, pm, props, n)[k] == SwapFor(g, labeled, pm, props, k)
  {
    if k < n - 1 {
      SwapsAt(g, labeled, pm, props, n - 1, k);
    }
  }

  /** The entity's components after the swaps whose last one is `last`. */
  predicate Swapped(material: MeshMaterial, sync: bool, material0: MeshMaterial, sync0: bool, last: Option<string>) {
    material == (if last.Some? then MtoonHandle(last.value) else material0) && sync == (sync0 || last.Some?)
  }

  /** `import_primitive_material`: a primitive without a material is left
      alone; otherwise every matching property with an existing MToon label
      swaps that label in (the last one stays) and adds `OutlineSync`. */
  method ImportPrimitiveMaterial(g: PropertyGraph, vrm: NodeId, ctx: LoadContext, e: PrimitiveEntity,
                                 primitiveMaterial: Option<NodeId>)
    modifies e
    ensures primitiveMaterial.None? ==> e.material == old(e.material) && e.outlineSync == old(e.outlineSync)
    ensures primitiveMaterial.Some? ==>
              Swapped(e.material, e.outlineSync, old(e.material), old(e.outlineSync),
                      Last(Swaps(g, ctx.labeled, primitiveMaterial.value, MaterialPropertyNodes(g, vrm), |MaterialPropertyNodes(g, vrm)|)))
  {
    if primitiveMaterial.None? {
      return;
    }
    var pm := primitiveMaterial.value;
    var props := MaterialPropertyNodes(g, vrm);
    var labeled := ctx.labeled;
    ghost var material0, sync0 := e.material, e.outlineSync;
    var i := 0;
    ghost var last: Option<string> := None;
    while i < |props|
      invariant 0 <= i <= |props|
      invariant last == Last(Swaps(g, labeled, pm, props, i))
      invariant Swapped(e.material, e.outlineSync, material0, sync0, last)
    {
      var swap := SwapAt(g, labeled, pm, props, i);
      ghost var es := Swaps(g, labeled, pm, props, i);
      assert Swaps(g, labeled, pm, props, i + 1) == es + [swap];
      LastAppend(es, swap);
      if swap.Some? {
        e.material := MtoonHandle(swap.value);
        e.outlineSync := true;
        last := swap;
      }
      i := i + 1;
    }
  }

  /** One iteration of `import_primitive_material`: the label property `i`
      swaps in, if it is bound to `pm`, asks for MToon and is loaded. */
  method SwapAt(g: PropertyGraph, labeled: map<string, LabeledAsset>, pm: NodeId, props: seq<NodeId>, i: nat)
    returns (swap: Option<string>)
    requires i < |props|
    ensures swap == SwapFor(g, labeled, pm, props, i)
  {
    swap := None;
    var mp := props[i];
    var m := g.Property(mp, MaterialPropertyMaterial);
    if m.Some? && m.value == pm {
      var w := ReadProperty(g, mp);
      if w.shader == Some(MToon) {
        var name := MtoonLabel(i);
        if name in labeled {
          swap := Some(name);
        }
      }
    }
  }

  /** `Last` picks the value of the last present entry, and is absent iff
      every entry is. */
  lemma {:induction false} LastSpec<T>(es: seq<Option<T>>)
    ensures Last(es).None? <==> forall i :: 0 <= i < |es| ==> es[i].None?
    ensures Last(es).Some? ==> exists i :: 0 <= i < |es| && es[i] == Last(es) && forall j :: i < j < |es| ==> es[j].None?
  {
    if |es| > 0 && es[|es| - 1].Some? {
      assert Last(es) == es[|es| - 1];
    } else if |es| > 0 {
      var p := es[..|es| - 1];
      assert Last(es) == Last(p);
      LastSpec(p);
      assert forall i :: 0 <= i < |p| ==> p[i] == es[i];
      if Last(es).Some? {
        var i :| 0 <= i < |p| && p[i] == Last(p) && forall j :: i < j < |p| ==> p[j].None?;
        assert es[i] == Last(es);
      }
    }
  }

  /** `Last` over any sequence whose entries are the swaps of `props`. */
  lemma LastSwap(g: PropertyGraph, labeled: map<string, LabeledAsset>, pm: NodeId, props: seq<NodeId>,
                 es: seq<Option<string>>)
    requires |es| == |props| && forall i :: 0 <= i < |props| ==> es[i] == SwapFor(g, labeled, pm, props, i)
    ensures Last(es).None? <==> forall i :: 0 <= i < |props| ==> !(Selected(g, props[i], pm) && MtoonLabel(i) in labeled)
    ensures Last(es).Some? ==> exists i :: 0 <= i < |props| && Last(es).value == MtoonLabel(i) &&
                                           Selected(g, props[i], pm) && MtoonLabel(i) in labeled &&
                                           forall j :: i < j < |props| ==> !(Selected(g, props[j], pm) && MtoonLabel(j) in labeled)
  {
    LastSpec(es);
    forall i | 0 <= i < |props|
      ensures es[i].None? <==> !(Selected(g, props[i], pm) && MtoonLabel(i) in labeled)
    {
    }
    if Last(es).Some? {
      var i :| 0 <= i < |es| && es[i] == Last(es) && forall j :: i < j < |es| ==> es[j].None?;
      assert Last(es).value == MtoonLabel(i) && Selected(g, props[i], pm) && MtoonLabel(i) in labeled;
      forall j | i < j < |props|
        ensures !(Selected(g, props[j], pm) && MtoonLabel(j) in labeled)
      {
        assert es[j].None?;
      }
    }
  }

  /** A primitive ends on MToon material `MaterialMtoon{i}` only for a
      property `i` bound to its material, asking for MToon, whose label
      exists, with no later such property. */
  lemma SwappedLabelIsRequested(g: PropertyGraph, labeled: map<string, LabeledAsset>, pm: NodeId, props: seq<NodeId>)
    ensures var last := Last(Swaps(g, labeled, pm, props, |props|));
            (last.None? <==> forall i :: 0 <= i < |props| ==> !(Selected(g, props[i], pm) && MtoonLabel(i) in labeled)) &&
            (last.Some? ==> exists i :: 0 <= i < |props| && last.value == MtoonLabel(i) &&
                                        Selected(g, props[i], pm) && MtoonLabel(i) in labeled &&
                                        forall j :: i < j < |props| ==> !(Selected(g, props[j], pm) && MtoonLabel(j) in labeled))
  {
    var es := Swaps(g, labeled, pm, props, |props|);
    forall i | 0 <= i < |props|
      ensures es[i] == SwapFor(g, labeled, pm, props, i)
    {
      SwapsAt(g, labeled, pm, props, |props|, i);
    }
    LastSwap(g, labeled, pm, props, es);
  }
}
