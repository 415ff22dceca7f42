/** The systems of `bevy_vrm/src/lib.rs`: `set_vrm_scene` (scene choice
    without the `GltfScene` indirection), `replace_mtoon_materials` (MToon
    material swap driven by `MtoonMarker` entities) and `vrm_bone_hook`
    (spring-bone groups and the humanoid slot table). Each system returns
    the commands it queues; a panic is the outcome `None`. */
module VrmLib {
  import opened Wrappers
  import opened Bones
  import opened VrmGraph
  import opened HumanoidLookup
  import AutoScene

  // ---------------------------------------------------------------------
  // Bone names

  /** The bone a sided name (after `left`/`right`) denotes; `toesWord` is
      the spelling accepted for the toes. */
  function SidedBone(side: Side, rest: string, toesWord: string): Option<BoneName> {
    if rest == "UpperLeg" then Some(UpperLeg(side))
    else if rest == "LowerLeg" then Some(LowerLeg(side))
    else if rest == "Foot" then Some(Foot(side))
    else if rest == toesWord then Some(Toes(side))
    else if rest == "Shoulder" then Some(Shoulder(side))
    else if rest == "UpperArm" then Some(UpperArm(side))
    else if rest == "LowerArm" then Some(LowerArm(side))
    else if rest == "Hand" then Some(Hand(side))
    else match FingerPrefix(rest)
      case None => None
      case Some((f, tail)) =>
        match SegmentOf(tail)
        case None => None
        case Some(g) => Some(Digit(side, f, g))
  }

  function FingerPrefix(s: string): Option<(Finger, string)> {
    if |s| >= 5 && s[..5] == "Thumb" then Some((Thumb, s[5..]))
    else if |s| >= 5 && s[..5] == "Index" then Some((Index, s[5..]))
    else if |s| >= 6 && s[..6] == "Middle" then Some((Middle, s[6..]))
    else if |s| >= 4 && s[..4] == "Ring" then Some((Ring, s[4..]))
    else if |s| >= 6 && s[..6] == "Little" then Some((Little, s[6..]))
    else None
  }

  function SegmentOf(s: string): Option<Segment> {
    if s == "Proximal" then Some(Proximal)
    else if s == "Intermediate" then Some(Intermediate)
    else if s == "Distal" then Some(Distal)
    else None
  }

  /** The slot a bone-name string selects, with `toesWord` as the spelling
      of the toes. */
  function ParseBoneName(s: string, toesWord: string): Option<BoneName> {
    if s == "hips" then Some(Hips)
    else if s == "spine" then Some(Spine)
    else if s == "chest" then Some(Chest)
    else if s == "upperChest" then Some(UpperChest)
    else if s == "neck" then Some(Neck)
    else if s == "head" then Some(Head)
    else if s == "jaw" then Some(Jaw)
    else if s == "leftEye" then Some(LeftEye)
    else if s == "rightEye" then Some(RightEye)
    else if |s| >= 4 && s[..4] == "left" then SidedBone(Left, s[4..], toesWord)
    else if |s| >= 5 && s[..5] == "right" then SidedBone(Right, s[5..], toesWord)
    else None
  }

  /** The slot the hook's `match bone_name.as_str()` fills, as written:
      its toe arms read `"leftToe"` and `"rightToe"`. */
  function HookSlot(s: string): Option<BoneName> {
    ParseBoneName(s, "Toe")
  }

  /** The slot for a VRM 0.x bone name, matching the JSON spelling
      (`"leftToes"`, `"rightToes"`). */
  function Slot(s: string): Option<BoneName> {
    ParseBoneName(s, "Toes")
  }

  /** The side of a sided bone; `None` for the nine central bones. */
  function SideOf(b: BoneName): Option<Side> {
    match b
    case UpperLeg(s) => Some(s)
    case LowerLeg(s) => Some(s)
    case Foot(s) => Some(s)
    case Toes(s) => Some(s)
    case Shoulder(s) => Some(s)
    case UpperArm(s) => Some(s)
    case LowerArm(s) => Some(s)
    case Hand(s) => Some(s)
    case Digit(s, _, _) => Some(s)
    case _ => None
  }

  lemma FingerRoundTrip(f: Finger, g: Segment)
    ensures FingerPrefix(FingerWord(f) + SegmentWord(g)) == Some((f, SegmentWord(g)))
    ensures SegmentOf(SegmentWord(g)) == Some(g)
  {
    var w := FingerWord(f);
    var s := w + SegmentWord(g);
    assert s[..|w|] == w && s[|w|..] == SegmentWord(g);
    assert s[0] == w[0];
    if |s| >= 5 {
      assert s[..5][0] == s[0];
    }
    if |s| >= 4 {
      assert s[..4][0] == s[0];
    }
    if |s| >= 6 {
      assert s[..6][0] == s[0];
    }
  }

  /** The word that follows `left`/`right` in a sided bone's name; empty
      for the central bones. */
  function SidedWord(b: BoneName): string {
    match b
    case UpperLeg(_) => "UpperLeg"
    case LowerLeg(_) => "LowerLeg"
    case Foot(_) => "Foot"
    case Toes(_) => "Toes"
    case Shoulder(_) => "Shoulder"
    case UpperArm(_) => "UpperArm"
    case LowerArm(_) => "LowerArm"
    case Hand(_) => "Hand"
    case Digit(_, f, g) => FingerWord(f) + SegmentWord(g)
    case _ => ""
  }

  lemma SidedName(b: BoneName, side: Side)
    requires SideOf(b) == Some(side)
    ensures JsonName(b) == SidePrefix(side) + SidedWord(b)
    ensures |SidedWord(b)| >= 4
  {
    match b {
      case Digit(_, f, g) =>
        assert SidePrefix(side) + FingerWord(f) + SegmentWord(g) == SidePrefix(side) + (FingerWord(f) + SegmentWord(g));
      case _ =>
    }
  }

  /** A finger word is longer than any of the eight fixed sided words, so
      only the finger arm of the match can catch it. */
  lemma SidedDigit(side: Side, f: Finger, g: Segment, toesWord: string)
    requires |toesWord| <= 8
    ensures SidedBone(side, FingerWord(f) + SegmentWord(g), toesWord) == Some(Digit(side, f, g))
  {
    assert |FingerWord(f) + SegmentWord(g)| > 8;
    FingerRoundTrip(f, g);
  }

  lemma SidedRoundTrip(b: BoneName, side: Side, toesWord: string)
    requires toesWord == "Toes" || toesWord == "Toe"
    requires !b.Toes? || toesWord == "Toes"
    requires SideOf(b) == Some(side)
    ensures SidedBone(side, SidedWord(b), toesWord) == Some(b)
  {
    match b {
      case Digit(_, f, g) => SidedDigit(side, f, g, toesWord);
      case _ =>
    }
  }

  /** Every VRM 0.x bone name selects its own slot. */
  lemma SlotRoundTrip(b: BoneName)
    ensures Slot(JsonName(b)) == Some(b)
  {
    ParseSided(b, "Toes");
  }

  lemma ParseSided(b: BoneName, toesWord: string)
    requires toesWord == "Toes" || toesWord == "Toe"
    requires !b.Toes? || toesWord == "Toes"
    ensures ParseBoneName(JsonName(b), toesWord) == Some(b)
  {
    if SideOf(b).Some? {
      SidedCase(b, SideOf(b).value, toesWord);
    }
  }

  lemma SidedCase(b: BoneName, side: Side, toesWord: string)
    requires toesWord == "Toes" || toesWord == "Toe"
    requires !b.Toes? || toesWord == "Toes"
    requires SideOf(b) == Some(side)
    ensures ParseBoneName(JsonName(b), toesWord) == Some(b)
  {
    var p := SidePrefix(side);
    var w := SidedWord(b);
    SidedName(b, side);
    SidedRoundTrip(b, side, toesWord);
    var s := p + w;
    assert s[..|p|] == p && s[|p|..] == w;
    assert s[0] == p[0];
    if side == Right {
      assert s[..4][0] == 'r';
    }
  }

  lemma FingerInverse(rest: string, f: Finger, tail: string)
    requires FingerPrefix(rest) == Some((f, tail))
    ensures rest == FingerWord(f) + tail
  {
    var n := |FingerWord(f)|;
    assert rest == rest[..n] + rest[n..];
  }

  /** The name a bone is parsed from when the toes are spelt `toesWord`. */
  function NameWith(b: BoneName, toesWord: string): string {
    if b.Toes? then SidePrefix(b.legSide) + toesWord else JsonName(b)
  }

  lemma SegmentInverse(s: string, g: Segment)
    requires SegmentOf(s) == Some(g)
    ensures s == SegmentWord(g)
  {
  }

  lemma SidedInverse(side: Side, rest: string, toesWord: string, b: BoneName)
    requires SidedBone(side, rest, toesWord) == Some(b)
    ensures NameWith(b, toesWord) == SidePrefix(side) + rest
  {
    if rest == "UpperLeg" {
      SidedName(b, side);
    } else if rest == "LowerLeg" {
      SidedName(b, side);
    } else if rest == "Foot" {
      SidedName(b, side);
    } else if rest == toesWord {
      assert b == Toes(side);
    } else if rest == "Shoulder" {
      SidedName(b, side);
    } else if rest == "UpperArm" {
      SidedName(b, side);
    } else if rest == "LowerArm" {
      SidedName(b, side);
    } else if rest == "Hand" {
      SidedName(b, side);
    } else {
      var pair := FingerPrefix(rest).value;
      var g := SegmentOf(pair.1).value;
      assert b == Digit(side, pair.0, g);
      FingerInverse(rest, pair.0, pair.1);
      SegmentInverse(pair.1, g);
      SidedName(b, side);
    }
  }

  /** Only one string selects a slot: the bone's name, with the toes spelt
      `toesWord`. */
  lemma ParseInverse(s: string, toesWord: string, b: BoneName)
    requires ParseBoneName(s, toesWord) == Some(b)
    ensures s == NameWith(b, toesWord)
  {
    if s in {"hips", "spine", "chest", "upperChest", "neck", "head", "jaw", "leftEye", "rightEye"} {
    } else if |s| >= 4 && s[..4] == "left" {
      assert s == s[..4] + s[4..];
      SidedInverse(Left, s[4..], toesWord, b);
    } else {
      assert s == s[..5] + s[5..];
      SidedInverse(Right, s[5..], toesWord, b);
    }
  }

  /** Only the VRM 0.x name of a bone selects its slot. */
  lemma SlotInverse(s: string, b: BoneName)
    requires Slot(s) == Some(b)
    ensures s == JsonName(b)
  {
    ParseInverse(s, "Toes", b);
  }

  /** As written, the toes of VRM 0.x (`"leftToes"`, `"rightToes"`) select
      no slot; the spelling `"leftToe"`/`"rightToe"` is the one caught. */
  lemma HookSlotMissesToes(side: Side)
    ensures HookSlot(JsonName(Toes(side))) == None
    ensures HookSlot(SidePrefix(side) + "Toe") == Some(Toes(side))
  {
    var s := JsonName(Toes(side));
    var p := SidePrefix(side);
    assert s[..|p|] == p && s[|p|..] == "Toes";
    var t := p + "Toe";
    assert t[..|p|] == p && t[|p|..] == "Toe";
    if side == Right {
      assert s[0] == t[0] == 'r';
      assert s[..4][0] == t[..4][0] == 'r';
    }
  }

  lemma HookSlotAgrees(b: BoneName)
    requires !b.Toes?
    ensures HookSlot(JsonName(b)) == Slot(JsonName(b)) == Some(b)
  {
    ParseSided(b, "Toe");
    ParseSided(b, "Toes");
  }

  // ---------------------------------------------------------------------
  // Panics: a run that reaches an `unwrap` of nothing yields `None`.

  /** Every element present, or `None` (the first `unwrap` that fails). */
  function AllSome<T>(xs: seq<Option<T>>): Option<seq<T>> {
    if |xs| == 0 then Some([])
    else match AllSome(xs[..|xs| - 1])
      case None => None
      case Some(vs) =>
        match xs[|xs| - 1]
        case None => None
        case Some(v) => Some(vs + [v])
  }

  lemma {:induction false} AllSomeSpec<T>(xs: seq<Option<T>>)
    ensures AllSome(xs).Some? <==> forall i :: 0 <= i < |xs| ==> xs[i].Some?
    ensures AllSome(xs).Some? ==> |AllSome(xs).value| == |xs| &&
                                  forall i :: 0 <= i < |xs| ==> xs[i] == Some(AllSome(xs).value[i])
  {
    if |xs| > 0 {
      var p := xs[..|xs| - 1];
      AllSomeSpec(p);
      assert forall i :: 0 <= i < |p| ==> p[i] == xs[i];
    }
  }

  /** The values of a sequence whose elements are all present. */
  lemma AllSomeValues<T>(xs: seq<Option<T>>, vs: seq<T>)
    requires |vs| == |xs| && forall i :: 0 <= i < |xs| ==> xs[i] == Some(vs[i])
    ensures AllSome(xs) == Some(vs)
  {
    AllSomeSpec(xs);
    assert AllSome(xs).value == vs;
  }

  /** The concatenation of per-row command lists, or `None` when a row panics. */
  function Flatten<T>(xs: seq<Option<seq<T>>>): Option<seq<T>> {
    if |xs| == 0 then Some([])
    else match Flatten(xs[..|xs| - 1])
      case None => None
      case Some(vs) =>
        match xs[|xs| - 1]
        case None => None
        case Some(v) => Some(vs + v)
  }

  lemma {:induction false} FlattenSpec<T>(xs: seq<Option<seq<T>>>)
    ensures Flatten(xs).None? <==> exists i :: 0 <= i < |xs| && xs[i].None?
    ensures Flatten(xs).Some? ==>
              forall c :: c in Flatten(xs).value <==> exists i :: 0 <= i < |xs| && xs[i].Some? && c in xs[i].value
  {
    if |xs| > 0 {
      var p := xs[..|xs| - 1];
      FlattenSpec(p);
      assert forall i :: 0 <= i < |p| ==> p[i] == xs[i];
      if Flatten(xs).Some? {
        forall c
          ensures c in Flatten(xs).value <==> exists i :: 0 <= i < |xs| && xs[i].Some? && c in xs[i].value
        {
          if c in xs[|xs| - 1].value {
            assert xs[|xs| - 1].Some?;
          }
        }
      }
    }
  }

  lemma FlattenAppend<T>(xs: seq<Option<seq<T>>>, x: Option<seq<T>>)
    ensures Flatten(xs + [x]) == (if Flatten(xs).Some? && x.Some? then Some(Flatten(xs).value + x.value) else None)
  {
    assert (xs + [x])[..|xs|] == xs;
  }

  // ---------------------------------------------------------------------
  // set_vrm_scene

  /** The scene the plugin's own `set_vrm_scene` shows: the loaded VRM's
      default scene, else its first scene. Here the glTF scene fields are
      `Handle<Scene>` directly. */
  function LibTarget(item: AutoScene.SceneItem, vrms: map<AutoScene.AssetId, AutoScene.GltfScenes<AutoScene.SceneHandle>>): Option<AutoScene.SceneHandle> {
    if item.vrm !in vrms then None else AutoScene.Candidate(vrms[item.vrm])
  }

  function LibTargets(items: seq<AutoScene.SceneItem>, vrms: map<AutoScene.AssetId, AutoScene.GltfScenes<AutoScene.SceneHandle>>): (ts: seq<Option<AutoScene.SceneHandle>>)
    ensures |ts| == |items| && forall i :: 0 <= i < |items| ==> ts[i] == LibTarget(items[i], vrms)
  {
    seq(|items|, i requires 0 <= i < |items| => LibTarget(items[i], vrms))
  }

  /** `set_vrm_scene` of `bevy_vrm/src/lib.rs`: one insertion per entity
      whose VRM is loaded, has a scene, and shows another one. */
  method SetVrmScene(items: seq<AutoScene.SceneItem>, vrms: map<AutoScene.AssetId, AutoScene.GltfScenes<AutoScene.SceneHandle>>)
    returns (cmds: seq<(Entity, AutoScene.SceneHandle)>)
    ensures cmds == AutoScene.Inserts(items, LibTargets(items, vrms))
  {
    ghost var targets := LibTargets(items, vrms);
    cmds := [];
    var i := 0;
    while i < |items|
      invariant 0 <= i <= |items|
      invariant cmds == AutoScene.Inserts(items[..i], targets[..i])
    {
      assert items[..i + 1][..i] == items[..i] && targets[..i + 1][..i] == targets[..i];
      var item := items[i];
      if item.vrm in vrms {
        var scene := AutoScene.Candidate(vrms[item.vrm]);
        if scene.Some? && item.scene != scene.value {
          cmds := cmds + [(item.entity, scene.value)];
        }
      }
      i := i + 1;
    }
    assert items[..i] == items && targets[..i] == targets;
  }

  /** After one run every entity with a loaded VRM that has a scene shows
      that scene, the others keep theirs, and a second run queues nothing. */
  lemma LibSceneSettles(items: seq<AutoScene.SceneItem>, vrms: map<AutoScene.AssetId, AutoScene.GltfScenes<AutoScene.SceneHandle>>)
    requires AutoScene.DistinctEntities(items)
    ensures var after := AutoScene.Applied(items, AutoScene.Inserts(items, LibTargets(items, vrms)));
            (forall i :: 0 <= i < |items| ==>
               after[i].scene == LibTarget(items[i], vrms).GetOr(items[i].scene)) &&
            AutoScene.Inserts(after, LibTargets(after, vrms)) == []
  {
    var targets := LibTargets(items, vrms);
    var after := AutoScene.Applied(items, AutoScene.Inserts(items, targets));
    AutoScene.CommandsSettle(items, targets);
    assert LibTargets(after, vrms) == targets;
  }

  // ---------------------------------------------------------------------
  // replace_mtoon_materials

  /** `Handle<GltfMesh>`, `Handle<Mesh>` and `Handle<MtoonMaterial>`. */
  type GltfMeshHandle = nat
  type MeshHandle = nat
  type MtoonHandle = nat

  /** An entity carrying an `MtoonMarker`: which primitive of which glTF
      mesh gets which MToon material. */
  datatype MarkerRow = MarkerRow(entity: Entity, mesh: GltfMeshHandle, primitive: nat, mtoon: MtoonHandle)

  /** `SetMtoon` removes the entity's `StandardMaterial` handle and inserts
      the MToon one; `RemoveMarker` removes the `MtoonMarker`. */
  datatype MaterialCommand = SetMtoon(target: Entity, mtoon: MtoonHandle) | RemoveMarker(target: Entity)

  /** One `SetMtoon` per entity (in query order) showing mesh `h`. */
  function Swaps(meshes: seq<(Entity, MeshHandle)>, h: MeshHandle, mtoon: MtoonHandle): seq<MaterialCommand> {
    if |meshes| == 0 then []
    else
      var n := |meshes| - 1;
      Swaps(meshes[..n], h, mtoon) + (if meshes[n].1 == h then [SetMtoon(meshes[n].0, mtoon)] else [])
  }

  lemma {:induction false} SwapsSpec(meshes: seq<(Entity, MeshHandle)>, h: MeshHandle, mtoon: MtoonHandle, c: MaterialCommand)
    ensures c in Swaps(meshes, h, mtoon) <==> c.SetMtoon? && c.mtoon == mtoon && (c.target, h) in meshes
    ensures |Swaps(meshes, h, mtoon)| > 0 <==> exists k :: 0 <= k < |meshes| && meshes[k].1 == h
  {
    if |meshes| > 0 {
      var n := |meshes| - 1;
      SwapsSpec(meshes[..n], h, mtoon, c);
      assert meshes == meshes[..n] + [meshes[n]];
      assert forall k :: 0 <= k < n ==> meshes[..n][k] == meshes[k];
    }
  }

  /** The commands for one marker; `None` when its glTF mesh is not loaded
      (`gltf_meshes.get(..).unwrap()`). */
  function MarkerCommands(m: MarkerRow, gltfMeshes: map<GltfMeshHandle, seq<MeshHandle>>,
                          meshes: seq<(Entity, MeshHandle)>): Option<seq<MaterialCommand>> {
    if m.mesh !in gltfMeshes then None
    else
      var prims := gltfMeshes[m.mesh];
      var swaps := if m.primitive < |prims| then Swaps(meshes, prims[m.primitive], m.mtoon) else [];
      Some(swaps + (if |swaps| > 0 then [RemoveMarker(m.entity)] else []))
  }

  function ReplaceCommands(markers: seq<MarkerRow>, gltfMeshes: map<GltfMeshHandle, seq<MeshHandle>>,
                           meshes: seq<(Entity, MeshHandle)>): Option<seq<MaterialCommand>> {
    Flatten(seq(|markers|, i requires 0 <= i < |markers| => MarkerCommands(markers[i], gltfMeshes, meshes)))
  }

  method SwapPrimitive(meshes: seq<(Entity, MeshHandle)>, h: MeshHandle, mtoon: MtoonHandle)
    returns (cmds: seq<MaterialCommand>)
    ensures cmds == Swaps(meshes, h, mtoon)
  {
    cmds := [];
    var k := 0;
    while k < |meshes|
      invariant 0 <= k <= |meshes|
      invariant cmds == Swaps(meshes[..k], h, mtoon)
    {
      assert meshes[..k + 1][..k] == meshes[..k];
      var (e, mesh) := meshes[k];
      if mesh == h {
        cmds := cmds + [SetMtoon(e, mtoon)];
      }
      k := k + 1;
    }
    assert meshes[..k] == meshes;
  }

  /** One marker: walk the primitives, act at the marked index, and drop
      the marker once some entity was switched. */
  method ReplaceMarker(m: MarkerRow, gltfMeshes: map<GltfMeshHandle, seq<MeshHandle>>,
                       meshes: seq<(Entity, MeshHandle)>) returns (r: Option<seq<MaterialCommand>>)
    ensures r == MarkerCommands(m, gltfMeshes, meshes)
  {
    if m.mesh !in gltfMeshes {
      return None;
    }
    var prims := gltfMeshes[m.mesh];
    var cmds := [];
    var j := 0;
    while j < |prims|
      invariant 0 <= j <= |prims|
      invariant cmds == if m.primitive < j then Swaps(meshes, prims[m.primitive], m.mtoon) else []
    {
      if j == m.primitive {
        cmds := SwapPrimitive(meshes, prims[j], m.mtoon);
      }
      j := j + 1;
    }
    ghost var swaps := cmds;
    assert swaps == if m.primitive < |prims| then Swaps(meshes, prims[m.primitive], m.mtoon) else [];
    var replaced := |cmds| > 0;
    if replaced {
      cmds := cmds + [RemoveMarker(m.entity)];
    }
    assert cmds == swaps + (if |swaps| > 0 then [RemoveMarker(m.entity)] else []);
    return Some(cmds);
  }

  /** `replace_mtoon_materials` of `bevy_vrm/src/lib.rs`. */
  method ReplaceMtoonMaterials(markers: seq<MarkerRow>, gltfMeshes: map<GltfMeshHandle, seq<MeshHandle>>,
                               meshes: seq<(Entity, MeshHandle)>) returns (r: Option<seq<MaterialCommand>>)
    ensures r == ReplaceCommands(markers, gltfMeshes, meshes)
  {
    ghost var rows := seq(|markers|, i requires 0 <= i < |markers| => MarkerCommands(markers[i], gltfMeshes, meshes));
    var cmds := [];
    var i := 0;
    while i < |markers|
      invariant 0 <= i <= |markers|
      invariant Flatten(rows[..i]) == Some(cmds)
    {
      var row := ReplaceMarker(markers[i], gltfMeshes, meshes);
      assert rows[..i + 1] == rows[..i] + [row];
      FlattenAppend(rows[..i], row);
      if row.None? {
        FlattenSpec(rows);
        return None;
      }
      cmds := cmds + row.value;
      i := i + 1;
    }
    assert rows[..i] == rows;
    return Some(cmds);
  }

  /** What a marker asks for: its glTF mesh is loaded, the marked primitive
      exists, and `c` either switches an entity showing that primitive's
      mesh, or removes the marker because at least one such entity exists. */
  ghost predicate Asks(m: MarkerRow, gltfMeshes: map<GltfMeshHandle, seq<MeshHandle>>,
                       meshes: seq<(Entity, MeshHandle)>, c: MaterialCommand) {
    m.mesh in gltfMeshes && m.primitive < |gltfMeshes[m.mesh]| &&
    var h := gltfMeshes[m.mesh][m.primitive];
    match c
    case SetMtoon(e, mtoon) => mtoon == m.mtoon && (e, h) in meshes
    case RemoveMarker(e) => e == m.entity && exists k :: 0 <= k < |meshes| && meshes[k].1 == h
  }

  /** The system panics exactly when a marker's glTF mesh is missing;
      otherwise it queues exactly the commands some marker asks for. */
  lemma ReplaceSpec(markers: seq<MarkerRow>, gltfMeshes: map<GltfMeshHandle, seq<MeshHandle>>,
                    meshes: seq<(Entity, MeshHandle)>, c: MaterialCommand)
    ensures ReplaceCommands(markers, gltfMeshes, meshes).None? <==> exists i :: 0 <= i < |markers| && markers[i].mesh !in gltfMeshes
    ensures ReplaceCommands(markers, gltfMeshes, meshes).Some? ==>
              (c in ReplaceCommands(markers, gltfMeshes, meshes).value <==>
               exists i :: 0 <= i < |markers| && Asks(markers[i], gltfMeshes, meshes, c))
  {
    var rows := seq(|markers|, i requires 0 <= i < |markers| => MarkerCommands(markers[i], gltfMeshes, meshes));
    FlattenSpec(rows);
    forall i | 0 <= i < |markers| && rows[i].Some?
      ensures c in rows[i].value <==> Asks(markers[i], gltfMeshes, meshes, c)
    {
      var m := markers[i];
      if m.primitive < |gltfMeshes[m.mesh]| {
        SwapsSpec(meshes, gltfMeshes[m.mesh][m.primitive], m.mtoon, c);
      }
    }
  }

  // ---------------------------------------------------------------------
  // vrm_bone_hook: resolving a glTF node to a scene entity

  /** `iter().find(..)` with `break`: the first pair whose second
      component is `key`. */
  method FindFirst<A, B(==)>(ps: seq<(A, B)>, key: B) returns (r: Option<A>)
    ensures r == FirstWithKey(ps, key)
  {
    var i := 0;
    while i < |ps|
      invariant 0 <= i <= |ps|
      invariant forall j :: 0 <= j < i ==> ps[j].1 != key
    {
      if ps[i].1 == key {
        return Some(ps[i].0);
      }
      i := i + 1;
    }
    return None;
  }

  /** What the hook sees of a loaded `Vrm` asset: the glTF node handles by
      index, `named_nodes` in iteration order, and the VRM 0.x extension. */
  datatype VrmAsset = VrmAsset(nodes: seq<Handle>, namedNodes: seq<(string, Handle)>, vrm0: Option<Vrm0Ext>)

  /** `secondary_animation.bone_groups` (both levels optional, merged) and
      `humanoid.human_bones`. */
  datatype Vrm0Ext = Vrm0Ext(boneGroups: Option<seq<BoneGroup>>, humanBones: Option<seq<HumanBone>>)

  datatype BoneGroup = BoneGroup(stiffiness: Option<real>, gravityPower: Option<real>, gravityDir: Option<Vec3>,
                                 dragForce: Option<real>, center: Option<real>, hitRadius: Option<real>,
                                 bones: Option<seq<nat>>)

  datatype HumanBone = HumanBone(name: Option<string>, node: Option<nat>)

  /** A glTF node index to the first entity of the scene instance named
      like the node: `nodes.get(..)`, the first `named_nodes` entry with that
      handle, the first instance entity carrying that `Name`. Each step
      that finds nothing is an `unwrap` that panics. */
  function Resolve(a: VrmAsset, names: seq<(Entity, string)>, node: nat): (r: Option<Entity>)
    ensures r.Some? ==> node < |a.nodes| && exists n :: (n, a.nodes[node]) in a.namedNodes && (r.value, n) in names
    ensures node >= |a.nodes| ==> r.None?
    ensures node < |a.nodes| && (forall i :: 0 <= i < |a.namedNodes| ==> a.namedNodes[i].1 != a.nodes[node]) ==> r.None?
  {
    if node >= |a.nodes| then None
    else match FirstWithKey(a.namedNodes, a.nodes[node])
      case None => None
      case Some(n) =>
        var r := FirstWithKey(names, n);
        assert r.Some? ==> (r.value, n) in names;
        r
  }

  method ResolveNode(a: VrmAsset, names: seq<(Entity, string)>, node: nat) returns (r: Option<Entity>)
    ensures r == Resolve(a, names, node)
  {
    if node >= |a.nodes| {
      return None;
    }
    var n := FindFirst(a.namedNodes, a.nodes[node]);
    if n.None? {
      return None;
    }
    r := FindFirst(names, n.value);
  }

  // ---------------------------------------------------------------------
  // vrm_bone_hook: spring bones

  datatype SpringBone = SpringBone(stiffiness: real, gravityPower: real, gravityDir: Vec3, dragForce: real,
                                   center: real, hitRadius: real, bones: seq<Entity>)

  function Resolved(a: VrmAsset, names: seq<(Entity, string)>, nodes: seq<nat>): seq<Option<Entity>> {
    seq(|nodes|, j requires 0 <= j < |nodes| => Resolve(a, names, nodes[j]))
  }

  /** One bone group: every node resolved, every field present. */
  function SpringBoneOf(a: VrmAsset, names: seq<(Entity, string)>, g: BoneGroup): Option<SpringBone> {
    if g.bones.None? then None
    else match AllSome(Resolved(a, names, g.bones.value))
      case None => None
      case Some(es) =>
        if g.stiffiness.Some? && g.gravityPower.Some? && g.gravityDir.Some? && g.dragForce.Some? &&
           g.center.Some? && g.hitRadius.Some?
        then Some(SpringBone(g.stiffiness.value, g.gravityPower.value, g.gravityDir.value, g.dragForce.value,
                             g.center.value, g.hitRadius.value, es))
        else None
  }

  function SpringBonesOf(a: VrmAsset, names: seq<(Entity, string)>, gs: seq<BoneGroup>): Option<seq<SpringBone>> {
    AllSome(seq(|gs|, i requires 0 <= i < |gs| => SpringBoneOf(a, names, gs[i])))
  }

  method LoadSpringBone(a: VrmAsset, names: seq<(Entity, string)>, g: BoneGroup) returns (r: Option<SpringBone>)
    ensures r == SpringBoneOf(a, names, g)
  {
    if g.bones.None? {
      return None;
    }
    var nodes := g.bones.value;
    ghost var xs := Resolved(a, names, nodes);
    var actual := [];
    var j := 0;
    while j < |nodes|
      invariant 0 <= j <= |nodes| && |actual| == j
      invariant forall k :: 0 <= k < j ==> xs[k] == Some(actual[k])
    {
      var e := ResolveNode(a, names, nodes[j]);
      if e.None? {
        assert xs[j].None?;
        AllSomeSpec(xs);
        return None;
      }
      actual := actual + [e.value];
      j := j + 1;
    }
    AllSomeValues(xs, actual);
    if g.stiffiness.None? || g.gravityPower.None? || g.gravityDir.None? || g.dragForce.None? ||
       g.center.None? || g.hitRadius.None? {
      return None;
    }
    return Some(SpringBone(g.stiffiness.value, g.gravityPower.value, g.gravityDir.value, g.dragForce.value,
                           g.center.value, g.hitRadius.value, actual));
  }

  method LoadSpringBones(a: VrmAsset, names: seq<(Entity, string)>, gs: seq<BoneGroup>) returns (r: Option<seq<SpringBone>>)
    ensures r == SpringBonesOf(a, names, gs)
  {
    ghost var xs := seq(|gs|, i requires 0 <= i < |gs| => SpringBoneOf(a, names, gs[i]));
    var springs := [];
    var i := 0;
    while i < |gs|
      invariant 0 <= i <= |gs| && |springs| == i
      invariant forall k :: 0 <= k < i ==> xs[k] == Some(springs[k])
    {
      var b := LoadSpringBone(a, names, gs[i]);
      if b.None? {
        assert xs[i].None?;
        AllSomeSpec(xs);
        return None;
      }
      springs := springs + [b.value];
      i := i + 1;
    }
    AllSomeValues(xs, springs);
    return Some(springs);
  }

  /** One `SpringBone` per group, in order: its fields are the group's, and
      its k-th bone is the entity its k-th node resolves to. Any missing
      field or unresolvable node panics. */
  lemma SpringBonesSpec(a: VrmAsset, names: seq<(Entity, string)>, gs: seq<BoneGroup>)
    ensures SpringBonesOf(a, names, gs).None? <==>
              exists i :: 0 <= i < |gs| && (gs[i].bones.None? || !GroupComplete(gs[i]) ||
                                            exists k :: 0 <= k < |gs[i].bones.value| && Resolve(a, names, gs[i].bones.value[k]).None?)
    ensures SpringBonesOf(a, names, gs).Some? ==>
              var bs := SpringBonesOf(a, names, gs).value;
              |bs| == |gs| &&
              forall i :: 0 <= i < |gs| ==>
                gs[i].bones.Some? && GroupComplete(gs[i]) &&
                bs[i].stiffiness == gs[i].stiffiness.value && bs[i].gravityPower == gs[i].gravityPower.value &&
                bs[i].gravityDir == gs[i].gravityDir.value && bs[i].dragForce == gs[i].dragForce.value &&
                bs[i].center == gs[i].center.value && bs[i].hitRadius == gs[i].hitRadius.value &&
                |bs[i].bones| == |gs[i].bones.value| &&
                forall k :: 0 <= k < |bs[i].bones| ==> Resolve(a, names, gs[i].bones.value[k]) == Some(bs[i].bones[k])
  {
    var xs := seq(|gs|, i requires 0 <= i < |gs| => SpringBoneOf(a, names, gs[i]));
    AllSomeSpec(xs);
    assert forall i :: 0 <= i < |gs| ==> xs[i] == SpringBoneOf(a, names, gs[i]);
    forall i | 0 <= i < |gs| && gs[i].bones.Some?
      ensures SpringBoneOf(a, names, gs[i]).Some? ==>
                (|SpringBoneOf(a, names, gs[i]).value.bones| == |gs[i].bones.value| &&
                 forall k :: 0 <= k < |gs[i].bones.value| ==>
                   Resolve(a, names, gs[i].bones.value[k]) == Some(SpringBoneOf(a, names, gs[i]).value.bones[k]))
      ensures SpringBoneOf(a, names, gs[i]).None? <==>
                (!GroupComplete(gs[i]) ||
                 exists k :: 0 <= k < |gs[i].bones.value| && Resolve(a, names, gs[i].bones.value[k]).None?)
    {
      AllSomeSpec(Resolved(a, names, gs[i].bones.value));
    }
  }

  predicate GroupComplete(g: BoneGroup) {
    g.stiffiness.Some? && g.gravityPower.Some? && g.gravityDir.Some? && g.dragForce.Some? &&
    g.center.Some? && g.hitRadius.Some?
  }

  // ---------------------------------------------------------------------
  // vrm_bone_hook: humanoid bones

  /** `HumanoidBones`, and the `UnfinishedHumanoidBones` it is built from:
      the 55 named slots as a map from bone to entity, and `others` for
      names that select no slot. */
  datatype HumanoidBones = HumanoidBones(slots: map<BoneName, Entity>, others: map<string, Entity>)

  /** The 17 slots `HumanoidBones` holds as a plain `Entity`; building it
      unwraps each of them. */
  const REQUIRED: set<BoneName> :=
    {Neck, Head, Hips, Spine, Chest,
     UpperArm(Left), UpperArm(Right), LowerArm(Left), LowerArm(Right), Hand(Left), Hand(Right),
     UpperLeg(Left), UpperLeg(Right), LowerLeg(Left), LowerLeg(Right), Foot(Left), Foot(Right)}

  /** One human bone: its name and the entity its node resolves to; a
      missing name or node, or a node that does not resolve, panics. */
  function BoneTarget(a: VrmAsset, names: seq<(Entity, string)>, b: HumanBone): Option<(string, Entity)> {
    if b.name.None? || b.node.None? then None
    else match Resolve(a, names, b.node.value)
      case None => None
      case Some(e) => Some((b.name.value, e))
  }

  function BoneTargets(a: VrmAsset, names: seq<(Entity, string)>, bones: seq<HumanBone>): seq<Option<(string, Entity)>> {
    seq(|bones|, i requires 0 <= i < |bones| => BoneTarget(a, names, bones[i]))
  }

  /** The slot write a resolved bone makes, under the name dispatch `parse`. */
  function SlotEntry(parse: string -> Option<BoneName>, p: (string, Entity)): Option<(BoneName, Entity)> {
    match parse(p.0)
    case Some(b) => Some((b, p.1))
    case None => None
  }

  /** The `others.insert(..)` a resolved bone makes when its name selects no slot. */
  function OtherEntry(parse: string -> Option<BoneName>, p: (string, Entity)): Option<(string, Entity)> {
    if parse(p.0).None? then Some(p) else None
  }

  function SlotEntries(parse: string -> Option<BoneName>, ps: seq<(string, Entity)>): seq<Option<(BoneName, Entity)>> {
    seq(|ps|, i requires 0 <= i < |ps| => SlotEntry(parse, ps[i]))
  }

  function OtherEntries(parse: string -> Option<BoneName>, ps: seq<(string, Entity)>): seq<Option<(string, Entity)>> {
    seq(|ps|, i requires 0 <= i < |ps| => OtherEntry(parse, ps[i]))
  }

  /** The table after the `match bone_name.as_str()` of every bone, in order. */
  function TableOf(parse: string -> Option<BoneName>, ps: seq<(string, Entity)>): HumanoidBones {
    HumanoidBones(Assign(map[], SlotEntries(parse, ps)), Assign(map[], OtherEntries(parse, ps)))
  }

  function HumanoidOf(a: VrmAsset, names: seq<(Entity, string)>, bones: seq<HumanBone>): Option<HumanoidBones> {
    match AllSome(BoneTargets(a, names, bones))
    case None => None
    case Some(ps) =>
      var t := TableOf(HookSlot, ps);
      if REQUIRED <= t.slots.Keys then Some(t) else None
  }

  lemma TableStep(parse: string -> Option<BoneName>, ps: seq<(string, Entity)>, p: (string, Entity))
    ensures TableOf(parse, ps + [p]) ==
            HumanoidBones(Put(TableOf(parse, ps).slots, SlotEntry(parse, p)), Put(TableOf(parse, ps).others, OtherEntry(parse, p)))
  {
    assert SlotEntries(parse, ps + [p]) == SlotEntries(parse, ps) + [SlotEntry(parse, p)];
    assert OtherEntries(parse, ps + [p]) == OtherEntries(parse, ps) + [OtherEntry(parse, p)];
    AssignAppend(map[], SlotEntries(parse, ps), SlotEntry(parse, p));
    AssignAppend(map[], OtherEntries(parse, ps), OtherEntry(parse, p));
  }

  /** The `match bone_name.as_str()` for one resolved bone, as written: its
      slot when the name selects one, `others` otherwise. */
  method InsertBone(slots0: map<BoneName, Entity>, others0: map<string, Entity>, name: string, e: Entity)
    returns (slots: map<BoneName, Entity>, others: map<string, Entity>)
    ensures slots == Put(slots0, SlotEntry(HookSlot, (name, e))) && others == Put(others0, OtherEntry(HookSlot, (name, e)))
    ensures forall b :: name == HookName(b) ==> slots == slots0[b := e] && others == others0
    ensures (forall b :: name != HookName(b)) ==> slots == slots0 && others == others0[name := e]
  {
    forall b | name == HookName(b) {
      HookSelects(name, b);
    }
    if HookSlot(name).Some? {
      HookSelects(name, HookSlot(name).value);
    }
    slots, others := slots0, others0;
    var slot := HookSlot(name);
    if slot.Some? {
      slots := slots[slot.value := e];
    } else {
      others := others[name := e];
    }
  }

  method LoadHumanoid(a: VrmAsset, names: seq<(Entity, string)>, bones: seq<HumanBone>) returns (r: Option<HumanoidBones>)
    ensures r == HumanoidOf(a, names, bones)
  {
    r := ResolveTable(a, names, bones);
    if r.Some? && !(REQUIRED <= r.value.slots.Keys) {
      return None;
    }
  }

  /** The bone loop of `load_humanoid`: it stops at the first bone without
      a name, a node or an entity; otherwise every bone, in order, is
      written into its slot or into `others`. */
  method ResolveTable(a: VrmAsset, names: seq<(Entity, string)>, bones: seq<HumanBone>) returns (r: Option<HumanoidBones>)
    ensures r.None? <==> AllSome(BoneTargets(a, names, bones)).None?
    ensures r.Some? ==> r.value == TableOf(HookSlot, AllSome(BoneTargets(a, names, bones)).value)
  {
    ghost var xs := BoneTargets(a, names, bones);
    ghost var ps: seq<(string, Entity)> := [];
    var slots: map<BoneName, Entity> := map[];
    var others: map<string, Entity> := map[];
    var i := 0;
    while i < |bones|
      invariant 0 <= i <= |bones| && |ps| == i
      invariant forall k :: 0 <= k < i ==> xs[k] == Some(ps[k])
      invariant HumanoidBones(slots, others) == TableOf(HookSlot, ps)
    {
      var bone := bones[i];
      if bone.name.None? || bone.node.None? {
        assert xs[i].None?;
        AllSomeSpec(xs);
        return None;
      }
      var e := ResolveNode(a, names, bone.node.value);
      if e.None? {
        assert xs[i].None?;
        AllSomeSpec(xs);
        return None;
      }
      var name := bone.name.value;
      slots, others := InsertBone(slots, others, name, e.value);
      TableStep(HookSlot, ps, (name, e.value));
      ps := ps + [(name, e.value)];
      i := i + 1;
    }
    AllSomeValues(xs, ps);
    return Some(HumanoidBones(slots, others));
  }

  /** The name that selects a bone in the hook's match as written: the
      VRM 0.x name, except that the toes are spelt `leftToe`/`rightToe`. */
  function HookName(b: BoneName): string {
    NameWith(b, "Toe")
  }

  /** In the match as written exactly one string selects each slot. */
  lemma HookSelects(s: string, b: BoneName)
    ensures HookSlot(s) == Some(b) <==> s == HookName(b)
  {
    if HookSlot(s) == Some(b) {
      ParseInverse(s, "Toe", b);
    }
    if b.Toes? {
      HookSlotMissesToes(b.legSide);
    } else {
      HookSlotAgrees(b);
    }
  }

  /** With the VRM 0.x spelling exactly one string selects each slot. */
  lemma SlotSelects(s: string, b: BoneName)
    ensures Slot(s) == Some(b) <==> s == JsonName(b)
  {
    SlotRoundTrip(b);
    if Slot(s) == Some(b) {
      SlotInverse(s, b);
    }
  }

  /** Under any dispatch in which only `name` selects slot `b`, the slot is
      filled iff some bone carries `name`, and holds the last such bone's
      entity. */
  lemma TableSlotsWith(parse: string -> Option<BoneName>, ps: seq<(string, Entity)>, b: BoneName, name: string)
    requires forall s :: parse(s) == Some(b) <==> s == name
    ensures b in TableOf(parse, ps).slots <==> exists i :: 0 <= i < |ps| && ps[i].0 == name
    ensures forall i :: 0 <= i < |ps| && ps[i].0 == name && (forall j :: i < j < |ps| ==> ps[j].0 != name) ==>
              TableOf(parse, ps).slots[b] == ps[i].1
  {
    var es := SlotEntries(parse, ps);
    assert forall i :: 0 <= i < |ps| ==> (Writes(es[i], b) <==> ps[i].0 == name);
    AssignSpec(map[], es, b);
  }

  /** `others` holds exactly the names that occur and select no slot. */
  lemma TableOthersWith(parse: string -> Option<BoneName>, ps: seq<(string, Entity)>, k: string)
    ensures k in TableOf(parse, ps).others <==> parse(k).None? && exists i :: 0 <= i < |ps| && ps[i].0 == k
  {
    var os := OtherEntries(parse, ps);
    assert forall i :: 0 <= i < |ps| ==> (Writes(os[i], k) <==> parse(k).None? && ps[i].0 == k);
    AssignSpec(map[], os, k);
  }

  /** With the VRM 0.x spelling, a slot is filled iff some bone carries
      its name, and holds the entity of the last such bone; `others` holds
      exactly the names that select no slot. */
  lemma TableSpec(ps: seq<(string, Entity)>, b: BoneName, k: string)
    ensures b in TableOf(Slot, ps).slots <==> exists i :: 0 <= i < |ps| && ps[i].0 == JsonName(b)
    ensures forall i :: 0 <= i < |ps| && ps[i].0 == JsonName(b) && (forall j :: i < j < |ps| ==> ps[j].0 != JsonName(b)) ==>
              TableOf(Slot, ps).slots[b] == ps[i].1
    ensures k in TableOf(Slot, ps).others <==> Slot(k).None? && exists i :: 0 <= i < |ps| && ps[i].0 == k
  {
    forall s {
      SlotSelects(s, b);
    }
    TableSlotsWith(Slot, ps, b, JsonName(b));
    TableOthersWith(Slot, ps, k);
  }

  /** The table the hook builds as written: a slot is filled iff some bone
      carries the slot's name in the match (`leftToe` for the toes), and
      holds the last such bone's entity; `others` holds exactly the names
      that select no slot. */
  lemma HookTableSpec(ps: seq<(string, Entity)>, b: BoneName, k: string)
    ensures b in TableOf(HookSlot, ps).slots <==> exists i :: 0 <= i < |ps| && ps[i].0 == HookName(b)
    ensures forall i :: 0 <= i < |ps| && ps[i].0 == HookName(b) && (forall j :: i < j < |ps| ==> ps[j].0 != HookName(b)) ==>
              TableOf(HookSlot, ps).slots[b] == ps[i].1
    ensures k in TableOf(HookSlot, ps).others <==> HookSlot(k).None? && exists i :: 0 <= i < |ps| && ps[i].0 == k
  {
    forall s {
      HookSelects(s, b);
    }
    TableSlotsWith(HookSlot, ps, b, HookName(b));
    TableOthersWith(HookSlot, ps, k);
  }

  /** As written, toes named the VRM 0.x way land in `others` and never in
      their slot; with the VRM 0.x spelling they fill the slot. */
  lemma AsWrittenToes(ps: seq<(string, Entity)>, side: Side)
    requires exists i :: 0 <= i < |ps| && ps[i].0 == JsonName(Toes(side))
    requires forall i :: 0 <= i < |ps| ==> ps[i].0 != SidePrefix(side) + "Toe"
    ensures Toes(side) !in TableOf(HookSlot, ps).slots && JsonName(Toes(side)) in TableOf(HookSlot, ps).others
    ensures Toes(side) in TableOf(Slot, ps).slots && JsonName(Toes(side)) !in TableOf(Slot, ps).others
  {
    var es := SlotEntries(HookSlot, ps);
    forall i | 0 <= i < |ps|
      ensures !Writes(es[i], Toes(side))
    {
      if HookSlot(ps[i].0) == Some(Toes(side)) {
        ParseInverse(ps[i].0, "Toe", Toes(side));
      }
    }
    AssignSpec(map[], es, Toes(side));
    HookSlotMissesToes(side);
    var os := OtherEntries(HookSlot, ps);
    var i :| 0 <= i < |ps| && ps[i].0 == JsonName(Toes(side));
    assert Writes(os[i], JsonName(Toes(side)));
    AssignSpec(map[], os, JsonName(Toes(side)));
    SlotRoundTrip(Toes(side));
    TableSpec(ps, Toes(side), JsonName(Toes(side)));
  }

  // ---------------------------------------------------------------------
  // vrm_bone_hook: the system

  /** An entity with a `SceneInstance` and a `Handle<Vrm>` but no
      `VrmLoaded`: whether its instance is ready, its VRM, and the entities
      of its instance that carry a `Name`, in iteration order. */
  datatype Unloaded = Unloaded(entity: Entity, ready: bool, vrm: AutoScene.AssetId, names: seq<(Entity, string)>)

  datatype HookCommand =
    | InsertLoaded(target: Entity)
    | InsertSpringBones(target: Entity, springBones: seq<SpringBone>)
    | InsertHumanoid(target: Entity, humanoid: HumanoidBones)

  /** The commands queued for one entity; `None` when it panics. */
  function InstanceCommands(u: Unloaded, assets: map<AutoScene.AssetId, VrmAsset>): Option<seq<HookCommand>> {
    if !u.ready || u.vrm !in assets then Some([])
    else
      var a := assets[u.vrm];
      if a.vrm0.None? then Some([InsertLoaded(u.entity)])
      else
        var x := a.vrm0.value;
        var springs :=
          if x.boneGroups.None? then Some([])
          else match SpringBonesOf(a, u.names, x.boneGroups.value)
            case None => None
            case Some(bs) => Some([InsertSpringBones(u.entity, bs)]);
        var humanoid :=
          if x.humanBones.None? then Some([])
          else match HumanoidOf(a, u.names, x.humanBones.value)
            case None => None
            case Some(h) => Some([InsertHumanoid(u.entity, h)]);
        if springs.None? || humanoid.None? then None
        else Some([InsertLoaded(u.entity)] + springs.value + humanoid.value)
  }

  function HookCommands(us: seq<Unloaded>, assets: map<AutoScene.AssetId, VrmAsset>): Option<seq<HookCommand>> {
    Flatten(seq(|us|, i requires 0 <= i < |us| => InstanceCommands(us[i], assets)))
  }

  method LoadInstance(u: Unloaded, assets: map<AutoScene.AssetId, VrmAsset>) returns (r: Option<seq<HookCommand>>)
    ensures r == InstanceCommands(u, assets)
  {
    if !(u.ready && u.vrm in assets) {
      return Some([]);
    }
    var a := assets[u.vrm];
    if a.vrm0.None? {
      return Some([InsertLoaded(u.entity)]);
    }
    var x := a.vrm0.value;
    var springs := [];
    if x.boneGroups.Some? {
      var bs := LoadSpringBones(a, u.names, x.boneGroups.value);
      if bs.None? {
        return None;
      }
      springs := [InsertSpringBones(u.entity, bs.value)];
    }
    var humanoid := [];
    if x.humanBones.Some? {
      var h := LoadHumanoid(a, u.names, x.humanBones.value);
      if h.None? {
        return None;
      }
      humanoid := [InsertHumanoid(u.entity, h.value)];
    }
    return Some([InsertLoaded(u.entity)] + springs + humanoid);
  }

  /** `vrm_bone_hook` of `bevy_vrm/src/lib.rs`. */
  method VrmBoneHook(us: seq<Unloaded>, assets: map<AutoScene.AssetId, VrmAsset>) returns (r: Option<seq<HookCommand>>)
    ensures r == HookCommands(us, assets)
  {
    ghost var rows := seq(|us|, i requires 0 <= i < |us| => InstanceCommands(us[i], assets));
    var cmds := [];
    var i := 0;
    while i < |us|
      invariant 0 <= i <= |us|
      invariant Flatten(rows[..i]) == Some(cmds)
    {
      var row := LoadInstance(us[i], assets);
      assert rows[..i + 1] == rows[..i] + [row];
      FlattenAppend(rows[..i], row);
      if row.None? {
        FlattenSpec(rows);
        return None;
      }
      cmds := cmds + row.value;
      i := i + 1;
    }
    assert rows[..i] == rows;
    return Some(cmds);
  }

  /** An entity is marked `VrmLoaded` iff its instance is ready and its VRM
      asset is loaded; every other command targets such an entity. */
  lemma HookLoadedIff(us: seq<Unloaded>, assets: map<AutoScene.AssetId, VrmAsset>, c: HookCommand)
    requires HookCommands(us, assets).Some?
    ensures c.InsertLoaded? ==>
              (c in HookCommands(us, assets).value <==>
               exists i :: 0 <= i < |us| && us[i].entity == c.target && us[i].ready && us[i].vrm in assets)
    ensures c in HookCommands(us, assets).value ==>
              exists i :: 0 <= i < |us| && us[i].entity == c.target && us[i].ready && us[i].vrm in assets
  {
    var rows := seq(|us|, i requires 0 <= i < |us| => InstanceCommands(us[i], assets));
    FlattenSpec(rows);
    assert forall i :: 0 <= i < |us| ==> rows[i] == InstanceCommands(us[i], assets);
    if c.InsertLoaded? && exists i :: 0 <= i < |us| && us[i].entity == c.target && us[i].ready && us[i].vrm in assets {
      var i :| 0 <= i < |us| && us[i].entity == c.target && us[i].ready && us[i].vrm in assets;
      assert rows[i].Some?;
      assert c == rows[i].value[0];
    }
  }

  /** Resolved human bones: the k-th carries the k-th bone's name and
      the entity its node resolves to. */
  lemma BoneTargetsSpec(a: VrmAsset, names: seq<(Entity, string)>, bones: seq<HumanBone>)
    requires AllSome(BoneTargets(a, names, bones)).Some?
    ensures var ps := AllSome(BoneTargets(a, names, bones)).value;
            |ps| == |bones| &&
            forall i :: 0 <= i < |bones| ==> bones[i].name == Some(ps[i].0) && bones[i].node.Some? &&
                                             Resolve(a, names, bones[i].node.value) == Some(ps[i].1)
  {
    var xs := BoneTargets(a, names, bones);
    AllSomeSpec(xs);
    assert forall i :: 0 <= i < |bones| ==> xs[i] == BoneTarget(a, names, bones[i]);
  }

  /** A `HumanoidBones` is inserted only with all 17 required slots
      filled, and it is the table the match as written builds from the
      resolved (name, entity) pairs. */
  lemma HumanoidTable(a: VrmAsset, names: seq<(Entity, string)>, bones: seq<HumanBone>)
    requires HumanoidOf(a, names, bones).Some?
    ensures AllSome(BoneTargets(a, names, bones)).Some?
    ensures HumanoidOf(a, names, bones).value == TableOf(HookSlot, AllSome(BoneTargets(a, names, bones)).value)
    ensures REQUIRED <= HumanoidOf(a, names, bones).value.slots.Keys
  {
  }

  /** A bone list and the (name, entity) pairs read from it agree on which
      entry is the last one with a given name. */
  lemma LastNamed(bones: seq<HumanBone>, ps: seq<(string, Entity)>, key: string, i: nat)
    requires |ps| == |bones| && forall k :: 0 <= k < |bones| ==> bones[k].name == Some(ps[k].0)
    requires i < |bones| && bones[i].name == Some(key) && forall j :: i < j < |bones| ==> bones[j].name != Some(key)
    ensures ps[i].0 == key && forall j :: i < j < |ps| ==> ps[j].0 != key
  {
  }

  /** Without a panic the 17 required slots are filled; a slot is filled
      iff some human bone carries the slot's name in the match as written
      (`leftToe`/`rightToe` for the toes), and holds the entity of the last
      such bone. */
  lemma HumanoidSpec(a: VrmAsset, names: seq<(Entity, string)>, bones: seq<HumanBone>, b: BoneName)
    requires HumanoidOf(a, names, bones).Some?
    ensures REQUIRED <= HumanoidOf(a, names, bones).value.slots.Keys
    ensures b in HumanoidOf(a, names, bones).value.slots <==>
              exists i :: 0 <= i < |bones| && bones[i].name == Some(HookName(b))
    ensures forall i :: 0 <= i < |bones| && bones[i].name == Some(HookName(b)) &&
                        (forall j :: i < j < |bones| ==> bones[j].name != Some(HookName(b))) ==>
              bones[i].node.Some? && Resolve(a, names, bones[i].node.value) == Some(HumanoidOf(a, names, bones).value.slots[b])
  {
    HumanoidTable(a, names, bones);
    var ps := AllSome(BoneTargets(a, names, bones)).value;
    var t := TableOf(HookSlot, ps);
    BoneTargetsSpec(a, names, bones);
    HookTableSpec(ps, b, "");
    forall i | 0 <= i < |bones| && bones[i].name == Some(HookName(b)) &&
               (forall j :: i < j < |bones| ==> bones[j].name != Some(HookName(b)))
      ensures bones[i].node.Some? && Resolve(a, names, bones[i].node.value) == Some(t.slots[b])
    {
      LastNamed(bones, ps, HookName(b), i);
    }
  }

  /** A humanoid with no bone named `leftToe` (`rightToe`) is inserted
      with that toe slot empty, even when a bone carries the VRM 0.x name
      `leftToes` (`rightToes`). */
  lemma HumanoidMissesToes(a: VrmAsset, names: seq<(Entity, string)>, bones: seq<HumanBone>, side: Side)
    requires HumanoidOf(a, names, bones).Some?
    requires forall i :: 0 <= i < |bones| ==> bones[i].name != Some(SidePrefix(side) + "Toe")
    ensures Toes(side) !in HumanoidOf(a, names, bones).value.slots
  {
    HumanoidSpec(a, names, bones, Toes(side));
  }
}
