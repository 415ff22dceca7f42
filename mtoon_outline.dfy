/** The systems of the MToon shader plugin (`crates/bevy_shader_mtoon/src/lib.rs`):
    `update_mtoon_shader` (light from the single `MtoonSun`), `add_outline`
    (outline components for `OutlineSync` entities lacking them) and
    `sync_outline` (outline visibility, width and colour from each entity's
    MToon material). Floating point is modelled over `real`; a division by
    zero is the non-finite width it yields in `f32`. */
module MtoonOutline {
  import opened Wrappers
  import opened VrmGraph

  type Entity = nat
  type MaterialHandle = nat

  // ---------------------------------------------------------------------
  // update_mtoon_shader

  /** The light fields of an `MtoonMaterial` asset. */
  class MtoonLight {
    var lightDir: Vec3
    var lightColor: Rgba

    constructor (dir: Vec3, color: Rgba)
      ensures lightDir == dir && lightColor == color
    {
      lightDir := dir;
      lightColor := color;
    }
  }

  /** A directional light marked `MtoonSun`: the back vector of its global
      transform and its colour. */
  datatype Sun = Sun(back: Vec3, color: Rgba)

  /** `update_mtoon_shader`: every material takes the sun's direction and
      colour when exactly one sun exists (`sun.single()` is `Ok`);
      otherwise nothing changes. */
  method UpdateMtoonShader(materials: seq<MtoonLight>, suns: seq<Sun>)
    modifies set m | m in materials
    ensures |suns| == 1 ==> forall m :: m in materials ==> m.lightDir == suns[0].back && m.lightColor == suns[0].color
    ensures |suns| != 1 ==> forall m :: m in materials ==> m.lightDir == old(m.lightDir) && m.lightColor == old(m.lightColor)
  {
    var i := 0;
    while i < |materials|
      invariant 0 <= i <= |materials|
      invariant |suns| == 1 ==> forall k :: 0 <= k < i ==> materials[k].lightDir == suns[0].back && materials[k].lightColor == suns[0].color
      invariant |suns| != 1 ==> forall m :: m in materials ==> m.lightDir == old(m.lightDir) && m.lightColor == old(m.lightColor)
    {
      if |suns| == 1 {
        materials[i].lightDir := suns[0].back;
        materials[i].lightColor := suns[0].color;
      }
      i := i + 1;
    }
  }

  // ---------------------------------------------------------------------
  // add_outline

  /** The entities `add_outline` gives default `OutlineMode`,
      `OutlineVolume` and `OutlineStencil` components: those with
      `OutlineSync` and no `OutlineVolume`, in query order. */
  method AddOutline(synced: seq<Entity>, volumes: set<Entity>) returns (inserts: seq<Entity>)
    ensures forall e :: e in inserts <==> e in synced && e !in volumes
  {
    inserts := [];
    var i := 0;
    while i < |synced|
      invariant 0 <= i <= |synced|
      invariant forall e :: e in inserts <==> e in synced[..i] && e !in volumes
    {
      if synced[i] !in volumes {
        inserts := inserts + [synced[i]];
      }
      assert synced[..i + 1] == synced[..i] + [synced[i]];
      i := i + 1;
    }
    assert synced[..i] == synced;
  }

  // ---------------------------------------------------------------------
  // sync_outline

  /** `VrmOutlineMode`. */
  datatype OutlineMode = NoOutline | Screen | World

  /** The outline fields of a loaded `MtoonMaterial`. */
  datatype OutlineSettings = OutlineSettings(mode: OutlineMode, outlineWidth: real, outlineColor: Rgba)

  /** An `f32` width: finite, or the infinity / NaN of a division by zero. */
  datatype Width = Finite(px: real) | NonFinite

  datatype OutlineState = OutlineState(visible: bool, width: Width, colour: Rgba)

  /** The `OutlineVolume` component of one entity. */
  class OutlineVolume {
    var visible: bool
    var width: Width
    var colour: Rgba

    function State(): OutlineState
      reads this
    {
      OutlineState(visible, width, colour)
    }

    constructor (s: OutlineState)
      ensures State() == s
    {
      visible := s.visible;
      width := s.width;
      colour := s.colour;
    }
  }

  /** One synced entity: its outline, its material handle and its distance
      to each camera (`length()` of the translation difference). */
  datatype SyncedEntity = SyncedEntity(outline: OutlineVolume, material: MaterialHandle, distances: seq<real>)

  /** `fold(0.0, |max, h| max.max(h))` over the window heights. */
  function MaxHeight(hs: seq<real>): (r: real)
    ensures r >= 0.0
    ensures forall i :: 0 <= i < |hs| ==> hs[i] <= r
    ensures r == 0.0 || exists i :: 0 <= i < |hs| && hs[i] == r
  {
    if |hs| == 0 then 0.0
    else
      var m := MaxHeight(hs[..|hs| - 1]);
      var h := hs[|hs| - 1];
      assert forall i :: 0 <= i < |hs| - 1 ==> hs[..|hs| - 1][i] == hs[i];
      if m >= h then m else h
  }

  /** `min_by(partial_cmp)`: the nearest camera, none without cameras. */
  function Nearest(ds: seq<real>): (r: Option<real>)
    ensures r.None? <==> |ds| == 0
    ensures r.Some? ==> (exists i :: 0 <= i < |ds| && ds[i] == r.value) && forall i :: 0 <= i < |ds| ==> r.value <= ds[i]
  {
    if |ds| == 0 then None
    else
      var m := Nearest(ds[..|ds| - 1]);
      var d := ds[|ds| - 1];
      assert forall i :: 0 <= i < |ds| - 1 ==> ds[..|ds| - 1][i] == ds[i];
      if m.Some? && m.value <= d then m else Some(d)
  }

  /** `x / d` in `f32`: not finite when `d` is zero. */
  function Divide(x: real, d: real): Width {
    if d == 0.0 then NonFinite else Finite(x / d)
  }

  /** The width a visible outline takes: in screen mode a ratio of the
      tallest window, in world mode metres scaled by the distance to the
      nearest camera (zero without cameras, `unwrap_or_default`). */
  function OutlineWidth(s: OutlineSettings, maxHeight: real, distances: seq<real>): Width {
    if s.mode == World then Divide(s.outlineWidth * maxHeight * 0.04, Nearest(distances).GetOr(0.0))
    else Finite(s.outlineWidth * maxHeight)
  }

  /** The outline of one entity after `sync_outline`, given its material
      (`None` when not loaded), the tallest window and its camera distances. */
  function Synced(o: OutlineState, m: Option<OutlineSettings>, maxHeight: real, distances: seq<real>): OutlineState {
    if m.None? then o
    else if m.value.mode == NoOutline then o.(visible := false)
    else OutlineState(true, OutlineWidth(m.value, maxHeight, distances), m.value.outlineColor)
  }

  function Material(materials: map<MaterialHandle, OutlineSettings>, h: MaterialHandle): Option<OutlineSettings> {
    if h in materials then Some(materials[h]) else None
  }

  ghost predicate DistinctOutlines(rows: seq<SyncedEntity>) {
    forall i, j :: 0 <= i < j < |rows| ==> rows[i].outline != rows[j].outline
  }

  /** The body of the loop for one entity whose material is loaded. */
  method SyncOne(outline: OutlineVolume, material: OutlineSettings, maxHeight: real, distances: seq<real>)
    modifies outline
    ensures outline.State() == Synced(old(outline.State()), Some(material), maxHeight, distances)
  {
    match material.mode {
      case NoOutline =>
        outline.visible := false;
        return;
      case Screen =>
        outline.visible := true;
        outline.width := Finite(material.outlineWidth * maxHeight);
      case World =>
        outline.visible := true;
        var distance := Nearest(distances).GetOr(0.0);
        outline.width := Divide(material.outlineWidth * maxHeight * 0.04, distance);
    }
    outline.colour := material.outlineColor;
    assert outline.width == OutlineWidth(material, maxHeight, distances);
  }

  /** `sync_outline`. Each entity's `OutlineVolume` is its own component,
      so the outlines are distinct objects. */
  method SyncOutline(rows: seq<SyncedEntity>, materials: map<MaterialHandle, OutlineSettings>, windowHeights: seq<real>)
    requires DistinctOutlines(rows)
    modifies set i | 0 <= i < |rows| :: rows[i].outline
    ensures forall i :: 0 <= i < |rows| ==>
              rows[i].outline.State() ==
              Synced(old(rows[i].outline.State()), Material(materials, rows[i].material), MaxHeight(windowHeights), rows[i].distances)
  {
    if |rows| == 0 {
      return;
    }
    var maxHeight := MaxHeight(windowHeights);
    var i := 0;
    while i < |rows|
      invariant 0 <= i <= |rows|
      invariant forall k :: 0 <= k < i ==>
                  rows[k].outline.State() ==
                  Synced(old(rows[k].outline.State()), Material(materials, rows[k].material), maxHeight, rows[k].distances)
      invariant forall k :: i <= k < |rows| ==> rows[k].outline.State() == old(rows[k].outline.State())
    {
      var row := rows[i];
      if row.material in materials {
        assert forall k :: 0 <= k < |rows| && k != i ==> rows[k].outline != row.outline;
        SyncOne(row.outline, materials[row.material], maxHeight, row.distances);
      }
      i := i + 1;
    }
  }

  /** An entity whose material is not loaded keeps its outline; otherwise
      the outline is visible iff the mode is not `None`, mode `None` keeps
      width and colour, and the other modes take the material's colour. */
  lemma OutlineModes(o: OutlineState, m: Option<OutlineSettings>, maxHeight: real, distances: seq<real>)
    ensures m.None? ==> Synced(o, m, maxHeight, distances) == o
    ensures m.Some? ==> (Synced(o, m, maxHeight, distances).visible <==> m.value.mode != NoOutline)
    ensures m.Some? && m.value.mode == NoOutline ==>
              Synced(o, m, maxHeight, distances).width == o.width && Synced(o, m, maxHeight, distances).colour == o.colour
    ensures m.Some? && m.value.mode != NoOutline ==> Synced(o, m, maxHeight, distances).colour == m.value.outlineColor
  {
  }

  lemma MulMonotone(w: real, a: real, b: real)
    requires w >= 0.0 && a <= b
    ensures w * a <= w * b
  {
    assert w * b - w * a == w * (b - a);
  }

  lemma DivAntitone(x: real, a: real, b: real)
    requires x >= 0.0 && 0.0 < a <= b
    ensures x / b <= x / a
  {
    assert x / a - x / b == x * (b - a) / (a * b);
    assert x * (b - a) >= 0.0 by {
      MulMonotone(x, 0.0, b - a);
    }
    assert a * b > 0.0 by {
      MulMonotone(a, 0.0, b);
      assert a * b >= a * a;
    }
  }

  /** In screen mode the width is the material's ratio of the tallest
      window: at least that ratio of every window, zero without windows. */
  lemma {:induction false} ScreenWidth(s: OutlineSettings, heights: seq<real>, distances: seq<real>)
    requires s.mode == Screen && s.outlineWidth >= 0.0
    ensures OutlineWidth(s, MaxHeight(heights), distances).Finite?
    ensures forall i :: 0 <= i < |heights| ==> s.outlineWidth * heights[i] <= OutlineWidth(s, MaxHeight(heights), distances).px
    ensures |heights| == 0 ==> OutlineWidth(s, MaxHeight(heights), distances).px == 0.0
  {
    ScreenWidthBelow(s, heights, MaxHeight(heights), distances);
  }

  /** The screen-mode width for any bound `h` on the heights that is zero
      without windows. */
  lemma ScreenWidthBelow(s: OutlineSettings, hs: seq<real>, h: real, distances: seq<real>)
    requires s.mode == Screen && s.outlineWidth >= 0.0
    requires (forall i :: 0 <= i < |hs| ==> hs[i] <= h) && (|hs| == 0 ==> h == 0.0)
    ensures OutlineWidth(s, h, distances).Finite?
    ensures forall i :: 0 <= i < |hs| ==> s.outlineWidth * hs[i] <= OutlineWidth(s, h, distances).px
    ensures |hs| == 0 ==> OutlineWidth(s, h, distances).px == 0.0
  {
    ScaleAll(s.outlineWidth, hs, h, OutlineWidth(s, h, distances));
  }

  /** A non-negative factor keeps every height below the scaled bound. */
  lemma ScaleAll(x: real, hs: seq<real>, h: real, w: Width)
    requires x >= 0.0 && forall i :: 0 <= i < |hs| ==> hs[i] <= h
    requires w == Finite(x * h)
    ensures forall i :: 0 <= i < |hs| ==> x * hs[i] <= w.px
    ensures h == 0.0 ==> w.px == 0.0
  {
    forall i | 0 <= i < |hs|
      ensures x * hs[i] <= x * h
    {
      MulMonotone(x, hs[i], h);
    }
  }

  /** With non-negative distances the nearest one is zero iff there is
      no camera or a camera at distance zero. */
  lemma {:induction false} NearestZero(ds: seq<real>)
    requires forall k :: 0 <= k < |ds| ==> ds[k] >= 0.0
    ensures Nearest(ds).GetOr(0.0) == 0.0 <==> |ds| == 0 || exists k :: 0 <= k < |ds| && ds[k] == 0.0
  {
    if |ds| > 0 {
      var n := Nearest(ds).value;
      var j :| 0 <= j < |ds| && ds[j] == n;
    }
  }

  /** Dividing by the nearest distance gives the largest quotient. */
  lemma {:induction false} NearestWidest(x: real, ds: seq<real>)
    requires x >= 0.0 && Nearest(ds).Some? && Nearest(ds).value > 0.0
    ensures forall k :: 0 <= k < |ds| ==> x / ds[k] <= x / Nearest(ds).value
  {
    forall k | 0 <= k < |ds|
      ensures x / ds[k] <= x / Nearest(ds).value
    {
      DivAntitone(x, Nearest(ds).value, ds[k]);
    }
  }

  lemma WorldDivides(s: OutlineSettings, maxHeight: real, distances: seq<real>)
    requires s.mode == World
    ensures OutlineWidth(s, maxHeight, distances) == Divide(s.outlineWidth * maxHeight * 0.04, Nearest(distances).GetOr(0.0))
  {
  }

  /** In world mode the width is taken at the nearest camera: the widest of
      the per-camera widths when every camera is away from the entity, and
      not finite with no camera or a camera at the entity. */
  lemma {:induction false} WorldWidth(s: OutlineSettings, maxHeight: real, distances: seq<real>)
    requires s.mode == World && s.outlineWidth >= 0.0 && maxHeight >= 0.0
    requires forall k :: 0 <= k < |distances| ==> distances[k] >= 0.0
    ensures OutlineWidth(s, maxHeight, distances).NonFinite? <==>
              |distances| == 0 || exists k :: 0 <= k < |distances| && distances[k] == 0.0
    ensures OutlineWidth(s, maxHeight, distances).Finite? ==>
              forall k :: 0 <= k < |distances| ==>
                s.outlineWidth * maxHeight * 0.04 / distances[k] <= OutlineWidth(s, maxHeight, distances).px
  {
    var x := s.outlineWidth * maxHeight * 0.04;
    var n := Nearest(distances);
    WorldDivides(s, maxHeight, distances);
    NearestZero(distances);
    if n.Some? && n.value != 0.0 {
      MulMonotone(s.outlineWidth, 0.0, maxHeight);
      NearestWidest(x, distances);
    }
  }
}
