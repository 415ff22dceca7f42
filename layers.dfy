/** The first-person render-layer table of `crates/bevy_vrm/src/layers.rs`:
    which render layers a mesh is drawn on, by its VRM first-person flag. */
module Layers {

  /** `serde_vrm::vrm0::FirstPersonFlag`. */
  datatype FirstPersonFlag = Auto | Both | FirstPersonOnly | ThirdPersonOnly

  const FIRST_PERSON_LAYER: nat := 7
  const THIRD_PERSON_LAYER: nat := 8

  /** A `RenderLayers` value is the set of layer numbers it enables. */
  type RenderLayers = set<nat>

  /** `RENDER_LAYERS`: the flag -> layers table, built once. */
  const RENDER_LAYERS: map<FirstPersonFlag, RenderLayers> :=
    map[
      Auto := {FIRST_PERSON_LAYER, THIRD_PERSON_LAYER},
      Both := {FIRST_PERSON_LAYER, THIRD_PERSON_LAYER},
      FirstPersonOnly := {FIRST_PERSON_LAYER},
      ThirdPersonOnly := {THIRD_PERSON_LAYER}
    ]

  /** Indexing the table never misses: every flag has an entry. */
  lemma TableIsTotal(f: FirstPersonFlag)
    ensures f in RENDER_LAYERS
  {
  }

  /** Auto and Both draw on both perspectives; each single-perspective flag on its own layer. */
  lemma TableEntries()
    ensures RENDER_LAYERS[Auto] == RENDER_LAYERS[Both] == {7, 8}
    ensures RENDER_LAYERS[FirstPersonOnly] == {7}
    ensures RENDER_LAYERS[ThirdPersonOnly] == {8}
  {
  }

  /** The two single-perspective sets split the Auto/Both set, and no entry uses the default layer 0. */
  lemma TablePartition()
    ensures RENDER_LAYERS[FirstPersonOnly] !! RENDER_LAYERS[ThirdPersonOnly]
    ensures RENDER_LAYERS[FirstPersonOnly] + RENDER_LAYERS[ThirdPersonOnly] == RENDER_LAYERS[Auto]
    ensures forall f :: f in RENDER_LAYERS ==> 0 !in RENDER_LAYERS[f]
  {
  }
}
