/** Scene selection for VRM entities: `set_vrm_scene` of
    `crates/bevy_vrm/src/auto_scene.rs`. For each entity it picks the
    loaded VRM's default scene, else its first scene, and queues a command
    setting the entity's scene handle when that handle differs. Commands
    are deferred: the system returns them, and `Applied` is the world
    after they run. */
module AutoScene {
  import opened Wrappers
  import opened HumanoidLookup

  /** `Handle<Scene>`, `Handle<GltfScene>` and `Handle<Vrm>`. */
  type SceneHandle = nat
  type GltfSceneHandle = nat
  type AssetId = nat

  /** One row of the query: the entity, its current scene handle and its
      VRM handle. */
  datatype SceneItem = SceneItem(entity: Entity, scene: SceneHandle, vrm: AssetId)

  /** The scene fields of a loaded VRM's glTF. */
  datatype GltfScenes<H> = GltfScenes(defaultScene: Option<H>, scenes: seq<H>)

  /** `default_scene`, else `scenes.first()`. */
  function Candidate<H>(g: GltfScenes<H>): Option<H> {
    match g.defaultScene
    case Some(h) => Some(h)
    case None => if |g.scenes| == 0 then None else Some(g.scenes[0])
  }

  /** The candidate is the default scene when there is one, else the first
      scene; there is none only when the glTF has neither. */
  lemma CandidateSpec<H>(g: GltfScenes<H>)
    ensures Candidate(g).None? <==> g.defaultScene.None? && |g.scenes| == 0
    ensures Candidate(g).Some? ==> Candidate(g) == g.defaultScene || (g.defaultScene.None? && Candidate(g).value == g.scenes[0])
    ensures Candidate(g).Some? ==> Candidate(g).value in g.scenes || Candidate(g) == g.defaultScene
  {
  }

  /** The scene an entity should show: its VRM must be loaded, have a
      candidate, and that `GltfScene` asset must be loaded too. */
  function AutoTarget(item: SceneItem, vrms: map<AssetId, GltfScenes<GltfSceneHandle>>,
                      gltfScenes: map<GltfSceneHandle, SceneHandle>): Option<SceneHandle>
  {
    if item.vrm !in vrms then None
    else match Candidate(vrms[item.vrm])
      case None => None
      case Some(h) => if h in gltfScenes then Some(gltfScenes[h]) else None
  }

  function AutoTargets(items: seq<SceneItem>, vrms: map<AssetId, GltfScenes<GltfSceneHandle>>,
                       gltfScenes: map<GltfSceneHandle, SceneHandle>): (ts: seq<Option<SceneHandle>>)
    ensures |ts| == |items| && forall i :: 0 <= i < |items| ==> ts[i] == AutoTarget(items[i], vrms, gltfScenes)
  {
    seq(|items|, i requires 0 <= i < |items| => AutoTarget(items[i], vrms, gltfScenes))
  }

  /** The commands a run queues, given each row's target: one insertion
      per row whose target exists and differs from its current scene. */
  function Inserts(items: seq<SceneItem>, targets: seq<Option<SceneHandle>>): seq<(Entity, SceneHandle)>
    requires |targets| == |items|
  {
    if |items| == 0 then []
    else
      var n := |items| - 1;
      Inserts(items[..n], targets[..n]) +
      (if targets[n].Some? && targets[n].value != items[n].scene then [(items[n].entity, targets[n].value)] else [])
  }

  /** `set_vrm_scene` in `crates/bevy_vrm/src/auto_scene.rs`; the query
      holds only entities with `AutoScene`. */
  method SetVrmScene(items: seq<SceneItem>, vrms: map<AssetId, GltfScenes<GltfSceneHandle>>,
                     gltfScenes: map<GltfSceneHandle, SceneHandle>) returns (cmds: seq<(Entity, SceneHandle)>)
    ensures cmds == Inserts(items, AutoTargets(items, vrms, gltfScenes))
  {
    ghost var targets := AutoTargets(items, vrms, gltfScenes);
    cmds := [];
    var i := 0;
    while i < |items|
      invariant 0 <= i <= |items|
      invariant cmds == Inserts(items[..i], targets[..i])
    {
      assert items[..i + 1][..i] == items[..i] && targets[..i + 1][..i] == targets[..i];
      var item := items[i];
      if item.vrm in vrms {
        var candidate := Candidate(vrms[item.vrm]);
        if candidate.Some? && candidate.value in gltfScenes {
          var scene := gltfScenes[candidate.value];
          if item.scene != scene {
            cmds := cmds + [(item.entity, scene)];
          }
        }
      }
      i := i + 1;
    }
    assert items[..i] == items && targets[..i] == targets;
  }

  // ---------------------------------------------------------------------
  // Applying the commands

  /** The scene the last command for `e` inserts, if any. */
  function LastInsert(cmds: seq<(Entity, SceneHandle)>, e: Entity): Option<SceneHandle> {
    if |cmds| == 0 then None
    else if cmds[|cmds| - 1].0 == e then Some(cmds[|cmds| - 1].1)
    else LastInsert(cmds[..|cmds| - 1], e)
  }

  /** The query rows after the queued insertions run. */
  function Applied(items: seq<SceneItem>, cmds: seq<(Entity, SceneHandle)>): (r: seq<SceneItem>)
    ensures |r| == |items|
    ensures forall i :: 0 <= i < |items| ==>
              r[i] == items[i].(scene := LastInsert(cmds, items[i].entity).GetOr(items[i].scene))
  {
    seq(|items|, i requires 0 <= i < |items| => items[i].(scene := LastInsert(cmds, items[i].entity).GetOr(items[i].scene)))
  }

  predicate DistinctEntities(items: seq<SceneItem>) {
    forall i, j :: 0 <= i < j < |items| ==> items[i].entity != items[j].entity
  }

  /** With one row per entity, the last command for a row's entity is
      the one that row queued, if any. */
  lemma {:induction false} InsertsLastFor(items: seq<SceneItem>, targets: seq<Option<SceneHandle>>, k: nat)
    requires |targets| == |items| && DistinctEntities(items) && k < |items|
    ensures LastInsert(Inserts(items, targets), items[k].entity) ==
            if targets[k].Some? && targets[k].value != items[k].scene then targets[k] else None
  {
    var n := |items| - 1;
    assert DistinctEntities(items[..n]);
    var tail := if targets[n].Some? && targets[n].value != items[n].scene then [(items[n].entity, targets[n].value)] else [];
    assert Inserts(items, targets) == Inserts(items[..n], targets[..n]) + tail;
    if k < n {
      InsertsLastFor(items[..n], targets[..n], k);
      assert items[..n][k] == items[k] && targets[..n][k] == targets[k];
      LastInsertAppendOther(Inserts(items[..n], targets[..n]), tail, items[k].entity);
    } else {
      InsertsNone(items[..n], targets[..n], items[k].entity);
      if tail == [] {
        assert Inserts(items, targets) == Inserts(items[..n], targets[..n]);
      }
    }
  }

  /** An entity with no row gets no command. */
  lemma {:induction false} InsertsNone(items: seq<SceneItem>, targets: seq<Option<SceneHandle>>, e: Entity)
    requires |targets| == |items| && forall i :: 0 <= i < |items| ==> items[i].entity != e
    ensures LastInsert(Inserts(items, targets), e).None?
  {
    if |items| > 0 {
      var n := |items| - 1;
      InsertsNone(items[..n], targets[..n], e);
      LastInsertAppendOther(Inserts(items[..n], targets[..n]),
        if targets[n].Some? && targets[n].value != items[n].scene then [(items[n].entity, targets[n].value)] else [], e);
    }
  }

  lemma LastInsertAppendOther(a: seq<(Entity, SceneHandle)>, b: seq<(Entity, SceneHandle)>, e: Entity)
    requires forall i :: 0 <= i < |b| ==> b[i].0 != e
    ensures LastInsert(a + b, e) == LastInsert(a, e)
    decreases |b|
  {
    if |b| > 0 {
      assert (a + b)[..|a + b| - 1] == a + b[..|b| - 1];
      LastInsertAppendOther(a, b[..|b| - 1], e);
    } else {
      assert a + b == a;
    }
  }

  /** A command is queued for an entity iff its row has a target different
      from its current scene. */
  lemma {:induction false} InsertsSpec(items: seq<SceneItem>, targets: seq<Option<SceneHandle>>, c: (Entity, SceneHandle))
    requires |targets| == |items|
    ensures c in Inserts(items, targets) <==>
              exists i :: 0 <= i < |items| && items[i].entity == c.0 && targets[i] == Some(c.1) && c.1 != items[i].scene
  {
    if |items| > 0 {
      var n := |items| - 1;
      InsertsSpec(items[..n], targets[..n], c);
      if exists i :: 0 <= i < |items| && items[i].entity == c.0 && targets[i] == Some(c.1) && c.1 != items[i].scene {
        var i :| 0 <= i < |items| && items[i].entity == c.0 && targets[i] == Some(c.1) && c.1 != items[i].scene;
        if i < n {
          assert items[..n][i] == items[i] && targets[..n][i] == targets[i];
        }
      }
    }
  }

  /** After the commands of one run, every row with a target shows it and
      the rest keep their scene; a second run with the same targets then
      queues nothing. */
  lemma CommandsSettle(items: seq<SceneItem>, targets: seq<Option<SceneHandle>>)
    requires |targets| == |items| && DistinctEntities(items)
    ensures var after := Applied(items, Inserts(items, targets));
            (forall i :: 0 <= i < |items| ==> after[i].scene == targets[i].GetOr(items[i].scene) &&
                                               after[i].entity == items[i].entity && after[i].vrm == items[i].vrm) &&
            Inserts(after, targets) == []
  {
    var after := Applied(items, Inserts(items, targets));
    forall i | 0 <= i < |items|
      ensures after[i].scene == targets[i].GetOr(items[i].scene)
    {
      InsertsLastFor(items, targets, i);
    }
    if Inserts(after, targets) != [] {
      var c := Inserts(after, targets)[0];
      InsertsSpec(after, targets, c);
    }
  }

  /** `set_vrm_scene` settles: each entity ends on the chosen scene when
      there is one, and a second run queues nothing. */
  lemma AutoSceneSettles(items: seq<SceneItem>, vrms: map<AssetId, GltfScenes<GltfSceneHandle>>,
                         gltfScenes: map<GltfSceneHandle, SceneHandle>)
    requires DistinctEntities(items)
    ensures var after := Applied(items, Inserts(items, AutoTargets(items, vrms, gltfScenes)));
            (forall i :: 0 <= i < |items| ==>
               after[i].scene == AutoTarget(items[i], vrms, gltfScenes).GetOr(items[i].scene)) &&
            Inserts(after, AutoTargets(after, vrms, gltfScenes)) == []
  {
    var targets := AutoTargets(items, vrms, gltfScenes);
    var after := Applied(items, Inserts(items, targets));
    CommandsSettle(items, targets);
    assert AutoTargets(after, vrms, gltfScenes) == targets;
  }
}
