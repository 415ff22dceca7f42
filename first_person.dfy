/** First-person mesh splitting (`crates/bevy_vrm/src/first_person.rs`).

    For every mesh flagged `Auto`, a copy of the mesh is made from which every
    triangle that touches a vertex skinned to the head (or a bone below it) is
    deleted; the copy becomes a first-person-only child of the mesh, and the
    mesh itself becomes third-person-only. Meshes with another flag are put on
    their flag's layers. Entities are numbers; the scene's `Parent` links are a
    finite map. */
module FirstPerson {
  import opened Wrappers
  import opened Layers
  import opened Bones

  type Entity = nat

  /** This file's own `RENDER_LAYERS`: unlike the table in `layers.rs`, the
      two-perspective entries also keep the default layer 0. */
  const SPLIT_RENDER_LAYERS: map<FirstPersonFlag, RenderLayers> :=
    map[
      Auto := {0, FIRST_PERSON_LAYER, THIRD_PERSON_LAYER},
      Both := {0, FIRST_PERSON_LAYER, THIRD_PERSON_LAYER},
      FirstPersonOnly := {FIRST_PERSON_LAYER},
      ThirdPersonOnly := {THIRD_PERSON_LAYER}
    ]

  // ---------------------------------------------------------------------
  // clean_indices

  function Min(a: nat, b: nat): nat {
    if a < b then a else b
  }

  /** Number of `chunks(3)` of a buffer of length n (the last may be short). */
  function ChunkCount(n: nat): nat {
    (n + 2) / 3
  }

  /** The c-th chunk of three consecutive indices (shorter at the very end). */
  function ChunkAt(s: seq<nat>, c: nat): seq<nat>
    requires c < ChunkCount(|s|)
  {
    s[3 * c .. Min(3 * c + 3, |s|)]
  }

  /** A chunk that starts inside the buffer exists. */
  lemma ChunkBound(n: nat, c: nat)
    requires 3 * c < n
    ensures c < ChunkCount(n)
  {
  }

  /** A triangle touches the vertex list when one of its corners is listed. */
  predicate Touches(chunk: seq<nat>, vertices: seq<nat>) {
    exists k :: 0 <= k < |chunk| && chunk[k] in vertices
  }

  /** The buffer with every touched chunk deleted and every other chunk kept,
      in order: the intended result of `clean_indices`. */
  function Kept(s: seq<nat>, vertices: seq<nat>): seq<nat>
    decreases |s|
  {
    if |s| == 0 then []
    else
      var k := Min(3, |s|);
      (if Touches(s[..k], vertices) then [] else s[..k]) + Kept(s[k..], vertices)
  }

  /** The case in which `clean_indices` panics: the buffer ends in a short
      chunk that is touched, so the second or third `Vec::remove` at its
      start runs past the end. */
  predicate ShortTailTouched(s: seq<nat>, vertices: seq<nat>) {
    |s| % 3 != 0 && Touches(s[|s| - |s| % 3..], vertices)
  }

  function RemoveAt(v: seq<nat>, i: nat): (r: seq<nat>)
    requires i < |v|
    ensures |r| == |v| - 1
  {
    v[..i] + v[i + 1..]
  }

  /** `toRemove` lists, in increasing order, exactly the touched chunks of `s`. */
  predicate ListsTouched(s: seq<nat>, vertices: seq<nat>, toRemove: seq<nat>) {
    && (forall t :: 0 <= t < |toRemove| ==> toRemove[t] < ChunkCount(|s|) && Touches(ChunkAt(s, toRemove[t]), vertices))
    && (forall t, u :: 0 <= t < u < |toRemove| ==> toRemove[t] < toRemove[u])
    && (forall c :: 0 <= c < ChunkCount(|s|) && Touches(ChunkAt(s, c), vertices) ==> c in toRemove)
  }

  /** The first loop of `clean_indices`: the numbers of the chunks that
      contain a listed vertex. */
  method TouchedChunks(indices: seq<nat>, vertices: seq<nat>) returns (toRemove: seq<nat>)
    ensures ListsTouched(indices, vertices, toRemove)
  {
    toRemove := [];
    var n := ChunkCount(|indices|);
    var i := 0;
    while i < n
      invariant 0 <= i <= n
      invariant forall t :: 0 <= t < |toRemove| ==> toRemove[t] < i && Touches(ChunkAt(indices, toRemove[t]), vertices)
      invariant forall t, u :: 0 <= t < u < |toRemove| ==> toRemove[t] < toRemove[u]
      invariant forall c :: 0 <= c < i && Touches(ChunkAt(indices, c), vertices) ==> c in toRemove
    {
      var chunk := ChunkAt(indices, i);
      var k := 0;
      while k < |chunk|
        invariant 0 <= k <= |chunk|
        invariant forall t :: 0 <= t < k ==> chunk[t] !in vertices
      {
        if chunk[k] in vertices {
          toRemove := toRemove + [i];
          break;
        }
        k := k + 1;
      }
      i := i + 1;
    }
  }

  /** `clean_indices(indices, vertices)`: None when the source panics, else
      the edited buffer. */
  method CleanIndices(indices: seq<nat>, vertices: seq<nat>) returns (r: Option<seq<nat>>)
    ensures r.None? <==> ShortTailTouched(indices, vertices)
    ensures r.Some? ==> r.value == Kept(indices, vertices)
  {
    var toRemove := TouchedChunks(indices, vertices);

    // Delete them back to front, three `remove(start)` calls each.
    var buf := indices;
    var j := |toRemove|;
    while j > 0
      invariant 0 <= j <= |toRemove|
      invariant Cut(indices, toRemove, j) <= |indices|
      invariant buf == Pending(indices, toRemove, j, vertices)
      invariant j < |toRemove| ==> 3 * toRemove[|toRemove| - 1] + 3 <= |indices|
    {
      ghost var before := buf;
      j := j - 1;
      var start := 3 * toRemove[j];
      NextRemoval(indices, toRemove, vertices, j, buf);
      if start + 3 > |buf| {
        return None;
      }
      buf := RemoveAt(buf, start);
      buf := RemoveAt(buf, start);
      buf := RemoveAt(buf, start);
      RemoveThree(before, start);
    }
    CleanFinish(indices, toRemove, vertices);
    UntouchedTail(indices, toRemove, vertices);
    return Some(buf);
  }

  /** The next back-to-front removal either runs past the end of the
      buffer, which happens only for a touched short tail, or keeps the
      loop invariant of `clean_indices`. */
  lemma NextRemoval(s: seq<nat>, toRemove: seq<nat>, vertices: seq<nat>, j: nat, buf: seq<nat>)
    requires ListsTouched(s, vertices, toRemove)
    requires j < |toRemove|
    requires Cut(s, toRemove, j + 1) <= |s|
    requires j + 1 < |toRemove| ==> 3 * toRemove[|toRemove| - 1] + 3 <= |s|
    requires buf == Pending(s, toRemove, j + 1, vertices)
    ensures 3 * toRemove[j] + 3 > |buf| ==> ShortTailTouched(s, vertices)
    ensures 3 * toRemove[j] + 3 <= |buf| ==>
              && Cut(s, toRemove, j) <= |s|
              && buf[..3 * toRemove[j]] + buf[3 * toRemove[j] + 3..] == Pending(s, toRemove, j, vertices)
              && 3 * toRemove[|toRemove| - 1] + 3 <= |s|
  {
    if j + 1 < |toRemove| {
      StartFits(s, toRemove, vertices, j);
    } else {
      PendingAtEnd(s, toRemove, vertices);
    }
    if 3 * toRemove[j] + 3 > |buf| {
      TouchedTailPanics(s, toRemove, vertices);
    } else {
      RemovalInvariant(s, toRemove, vertices, j, buf);
    }
  }

  /** Below the last listed chunk, a removal start always leaves room for its three indices. */
  lemma StartFits(s: seq<nat>, toRemove: seq<nat>, vertices: seq<nat>, j: nat)
    requires ListsTouched(s, vertices, toRemove)
    requires j + 1 < |toRemove|
    requires Cut(s, toRemove, j + 1) <= |s|
    ensures 3 * toRemove[j] + 3 <= |Pending(s, toRemove, j + 1, vertices)|
  {
    assert toRemove[j] < toRemove[j + 1];
  }

  /** Before any removal the buffer is the input. */
  lemma PendingAtEnd(s: seq<nat>, toRemove: seq<nat>, vertices: seq<nat>)
    ensures Pending(s, toRemove, |toRemove|, vertices) == s
  {
    assert s[|s|..] == [];
  }

  /** One back-to-front removal step keeps the loop invariant of `clean_indices`. */
  lemma RemovalInvariant(s: seq<nat>, toRemove: seq<nat>, vertices: seq<nat>, j: nat, before: seq<nat>)
    requires ListsTouched(s, vertices, toRemove)
    requires j < |toRemove|
    requires Cut(s, toRemove, j + 1) <= |s|
    requires j + 1 < |toRemove| ==> 3 * toRemove[|toRemove| - 1] + 3 <= |s|
    requires before == Pending(s, toRemove, j + 1, vertices)
    requires 3 * toRemove[j] + 3 <= |before|
    ensures Cut(s, toRemove, j) <= |s|
    ensures before[..3 * toRemove[j]] + before[3 * toRemove[j] + 3..] == Pending(s, toRemove, j, vertices)
    ensures 3 * toRemove[|toRemove| - 1] + 3 <= |s|
  {
    UntouchedBetween(s, toRemove, vertices, j);
    RemovalStep(s, toRemove[j], Cut(s, toRemove, j + 1), vertices);
  }

  /** Between a listed chunk and the next listed one (or the end), no
      chunk is touched. */
  lemma UntouchedBetween(s: seq<nat>, toRemove: seq<nat>, vertices: seq<nat>, j: nat)
    requires ListsTouched(s, vertices, toRemove)
    requires j < |toRemove|
    requires Cut(s, toRemove, j + 1) <= |s|
    ensures forall e :: 3 * toRemove[j] + 3 <= 3 * e < Cut(s, toRemove, j + 1) ==> !Touches(ChunkAt(s, e), vertices)
  {
    var q := Cut(s, toRemove, j + 1);
    forall e: nat | 3 * toRemove[j] + 3 <= 3 * e < q
      ensures !Touches(ChunkAt(s, e), vertices)
    {
      ChunkBound(|s|, e);
      NotListed(toRemove, j, e);
    }
  }

  /** After every listed chunk is removed, the buffer is Kept(s). */
  lemma CleanFinish(s: seq<nat>, toRemove: seq<nat>, vertices: seq<nat>)
    requires ListsTouched(s, vertices, toRemove)
    requires Cut(s, toRemove, 0) <= |s|
    ensures Pending(s, toRemove, 0, vertices) == Kept(s, vertices)
  {
    var z := Cut(s, toRemove, 0);
    forall c: nat | 3 * c < z
      ensures !Touches(ChunkAt(s, c), vertices)
    {
      if |toRemove| > 0 {
        NotListedBelow(toRemove, c);
      }
    }
    KeptSkipUntouched(s, 0, z, vertices);
    assert s[0..] == s;
    assert s[0..z] == s[..z];
  }

  /** When every listed chunk fits, the short tail was not touched. */
  lemma UntouchedTail(s: seq<nat>, toRemove: seq<nat>, vertices: seq<nat>)
    requires ListsTouched(s, vertices, toRemove)
    requires 0 < |toRemove| ==> 3 * toRemove[|toRemove| - 1] + 3 <= |s|
    ensures !ShortTailTouched(s, vertices)
  {
    if ShortTailTouched(s, vertices) {
      TailIsLastChunk(s, vertices);
      LastListedIsMax(toRemove, ChunkCount(|s|) - 1);
    }
  }

  /** Where the unprocessed part of the buffer ends after the removals
      toRemove[j..] were done. */
  function Cut(s: seq<nat>, toRemove: seq<nat>, j: nat): nat
    requires j <= |toRemove|
  {
    if j == |toRemove| then |s| else 3 * toRemove[j]
  }

  /** The buffer once the removals toRemove[j..] are done: untouched
      prefix, cleaned suffix. */
  function Pending(s: seq<nat>, toRemove: seq<nat>, j: nat, vertices: seq<nat>): seq<nat>
    requires j <= |toRemove| && Cut(s, toRemove, j) <= |s|
  {
    s[..Cut(s, toRemove, j)] + Kept(s[Cut(s, toRemove, j)..], vertices)
  }

  lemma RemoveThree(v: seq<nat>, start: nat)
    requires start + 3 <= |v|
    ensures RemoveAt(RemoveAt(RemoveAt(v, start), start), start) == v[..start] + v[start + 3..]
  {
  }

  /** A chunk number strictly between two consecutive listed chunks is not listed. */
  lemma NotListed(toRemove: seq<nat>, j: nat, c: nat)
    requires j < |toRemove|
    requires forall t, u :: 0 <= t < u < |toRemove| ==> toRemove[t] < toRemove[u]
    requires toRemove[j] < c
    requires j + 1 < |toRemove| ==> c < toRemove[j + 1]
    ensures c !in toRemove
  {
    forall t | 0 <= t < |toRemove|
      ensures toRemove[t] != c
    {
      if t < j {
        assert toRemove[t] < toRemove[j];
      } else if t > j + 1 {
        assert toRemove[j + 1] < toRemove[t];
      }
    }
  }

  lemma NotListedBelow(toRemove: seq<nat>, c: nat)
    requires 0 < |toRemove|
    requires forall t, u :: 0 <= t < u < |toRemove| ==> toRemove[t] < toRemove[u]
    requires c < toRemove[0]
    ensures c !in toRemove
  {
    forall t | 0 <= t < |toRemove|
      ensures toRemove[t] != c
    {
      if t > 0 {
        assert toRemove[0] < toRemove[t];
      }
    }
  }

  /** In an increasing list, an element that is at least every listed value is the last one. */
  lemma LastListedIsMax(toRemove: seq<nat>, c: nat)
    requires c in toRemove
    requires forall t, u :: 0 <= t < u < |toRemove| ==> toRemove[t] < toRemove[u]
    ensures toRemove[|toRemove| - 1] >= c
  {
    var t :| 0 <= t < |toRemove| && toRemove[t] == c;
    if t < |toRemove| - 1 {
      assert toRemove[t] < toRemove[|toRemove| - 1];
    }
  }

  /** A short tail is the last chunk. */
  lemma TailIsLastChunk(s: seq<nat>, vertices: seq<nat>)
    requires |s| % 3 != 0
    ensures ChunkCount(|s|) >= 1
    ensures 3 * (ChunkCount(|s|) - 1) == |s| - |s| % 3
    ensures ChunkAt(s, ChunkCount(|s|) - 1) == s[|s| - |s| % 3..]
  {
    var n := |s|;
    var q, r := n / 3, n % 3;
    assert n == 3 * q + r;
    assert (n + 2) / 3 == q + 1;
  }

  /** If the last listed chunk does not fit, it is the short tail and it is touched. */
  lemma TouchedTailPanics(s: seq<nat>, toRemove: seq<nat>, vertices: seq<nat>)
    requires 0 < |toRemove|
    requires forall t :: 0 <= t < |toRemove| ==> toRemove[t] < ChunkCount(|s|) && Touches(ChunkAt(s, toRemove[t]), vertices)
    requires 3 * toRemove[|toRemove| - 1] + 3 > |s|
    ensures ShortTailTouched(s, vertices)
  {
    var last := toRemove[|toRemove| - 1];
    var n := |s|;
    var q, r := n / 3, n % 3;
    assert n == 3 * q + r;
    assert (n + 2) / 3 == if r == 0 then q else q + 1;
    assert r != 0;
    TailIsLastChunk(s, vertices);
    assert last == q;
  }

  /** Untouched chunks in s[a..b] are kept as they are. */
  lemma {:induction false} KeptSkipUntouched(s: seq<nat>, a: nat, b: nat, vertices: seq<nat>)
    requires a <= b <= |s|
    requires a % 3 == 0 || a == b
    requires b % 3 == 0 || b == |s|
    requires forall c :: a <= 3 * c < b ==> !Touches(ChunkAt(s, c), vertices)
    ensures Kept(s[a..], vertices) == s[a..b] + Kept(s[b..], vertices)
    decreases b - a
  {
    if a == b {
      assert s[a..b] == [];
    } else {
      var k := Min(3, |s| - a);
      ChunkStepBounds(a, b, |s|);
      assert ChunkAt(s, a / 3) == s[a..a + k];
      KeptChunkAt(s, a, vertices);
      KeptSkipUntouched(s, a + k, b, vertices);
      JoinKept(s, a, k, b, Kept(s[a..], vertices), Kept(s[a + k..], vertices), Kept(s[b..], vertices));
    }
  }

  /** Kept chunk from a to a + k, then kept chunks from a + k to b. */
  lemma JoinKept(s: seq<nat>, a: nat, k: nat, b: nat, fromA: seq<nat>, fromK: seq<nat>, fromB: seq<nat>)
    requires a + k <= b <= |s|
    requires fromA == s[a..a + k] + fromK
    requires fromK == s[a + k..b] + fromB
    ensures fromA == s[a..b] + fromB
  {
    assert s[a..b] == s[a..a + k] + s[a + k..b];
  }

  /** The suffix from a keeps its untouched first chunk in front of the rest. */
  lemma KeptChunkAt(s: seq<nat>, a: nat, vertices: seq<nat>)
    requires a < |s| && !Touches(s[a..a + Min(3, |s| - a)], vertices)
    ensures Kept(s[a..], vertices) == s[a..a + Min(3, |s| - a)] + Kept(s[a + Min(3, |s| - a)..], vertices)
  {
    var k := Min(3, |s| - a);
    assert s[a..][..k] == s[a..a + k];
    assert s[a..][k..] == s[a + k..];
    KeptUntouchedHead(s[a..], vertices);
  }

  /** The arithmetic of one step of KeptSkipUntouched: the chunk starting
      at a exists, and the next start is still a chunk start or b. */
  lemma ChunkStepBounds(a: nat, b: nat, n: nat)
    requires a < b <= n
    requires a % 3 == 0
    requires b % 3 == 0 || b == n
    ensures 3 * (a / 3) == a && a / 3 < ChunkCount(n)
    ensures a + Min(3, n - a) <= b
    ensures (a + Min(3, n - a)) % 3 == 0 || a + Min(3, n - a) == b
  {
    var c := a / 3;
    assert a == 3 * c;
    if b % 3 == 0 {
      assert b >= a + 3 by {
        var d := b / 3;
        assert b == 3 * d;
      }
    }
  }

  /** An untouched first chunk is kept in front of the rest. */
  lemma KeptUntouchedHead(t: seq<nat>, vertices: seq<nat>)
    requires |t| > 0 && !Touches(t[..Min(3, |t|)], vertices)
    ensures Kept(t, vertices) == t[..Min(3, |t|)] + Kept(t[Min(3, |t|)..], vertices)
  {
  }

  /** One touched chunk c, followed by untouched chunks up to q. */
  lemma RemovalStep(s: seq<nat>, c: nat, q: nat, vertices: seq<nat>)
    requires 3 * c + 3 <= q <= |s|
    requires q % 3 == 0 || q == |s|
    requires Touches(ChunkAt(s, c), vertices)
    requires forall e :: 3 * c + 3 <= 3 * e < q ==> !Touches(ChunkAt(s, e), vertices)
    ensures (s[..q] + Kept(s[q..], vertices))[..3 * c] + (s[..q] + Kept(s[q..], vertices))[3 * c + 3..]
            == s[..3 * c] + Kept(s[3 * c..], vertices)
  {
    var start := 3 * c;
    assert ChunkAt(s, c) == s[start..start + 3];
    KeptTouchedAt(s, start, vertices);
    KeptSkipUntouched(s, start + 3, q, vertices);
    JoinRemoval(s, start, q, Kept(s[q..], vertices), Kept(s[start + 3..], vertices), Kept(s[start..], vertices));
  }

  /** The suffix from a drops its touched first chunk. */
  lemma KeptTouchedAt(s: seq<nat>, a: nat, vertices: seq<nat>)
    requires a + 3 <= |s| && Touches(s[a..a + 3], vertices)
    ensures Kept(s[a..], vertices) == Kept(s[a + 3..], vertices)
  {
    var t := s[a..];
    assert t[..Min(3, |t|)] == s[a..a + 3];
    assert t[Min(3, |t|)..] == s[a + 3..];
  }

  /** Cutting three entries at start out of the prefix up to q followed by
      the kept rest. */
  lemma JoinRemoval(s: seq<nat>, start: nat, q: nat, fromQ: seq<nat>, fromNext: seq<nat>, fromStart: seq<nat>)
    requires start + 3 <= q <= |s|
    requires fromStart == fromNext
    requires fromNext == s[start + 3..q] + fromQ
    ensures (s[..q] + fromQ)[..start] + (s[..q] + fromQ)[start + 3..] == s[..start] + fromStart
  {
    var before := s[..q] + fromQ;
    assert before[..start] == s[..start];
    assert before[start + 3..] == s[start + 3..q] + fromQ;
  }

  // ---------------------------------------------------------------------
  // is_child

  /** `rank` witnesses that the `Parent` links have no cycle: every entity
      with a parent ranks strictly above that parent. */
  ghost predicate Ranked(parents: map<Entity, Entity>, rank: map<Entity, nat>) {
    forall x :: x in parents ==> x in rank && parents[x] in rank && rank[parents[x]] < rank[x]
  }

  /** `is_child(child, target)`: walks up the `Parent` links from `child`
      looking for `target`. */
  function IsChild(child: Entity, target: Entity, parents: map<Entity, Entity>, ghost rank: map<Entity, nat>): bool
    requires Ranked(parents, rank)
    decreases if child in rank then rank[child] else 0
  {
    if child == target then true
    else if child in parents then IsChild(parents[child], target, parents, rank)
    else false
  }

  /** The k-th ancestor of x (x itself for k = 0), if the chain is that long. */
  function Ancestor(x: Entity, k: nat, parents: map<Entity, Entity>): Option<Entity>
    decreases k
  {
    if k == 0 then Some(x)
    else if x in parents then Ancestor(parents[x], k - 1, parents)
    else None
  }

  /** `is_child(x, t)` holds exactly when t is x or one of its ancestors. */
  lemma IsChildIffAncestor(x: Entity, t: Entity, parents: map<Entity, Entity>, rank: map<Entity, nat>)
    requires Ranked(parents, rank)
    ensures IsChild(x, t, parents, rank) <==> exists k: nat :: Ancestor(x, k, parents) == Some(t)
  {
    if IsChild(x, t, parents, rank) {
      var k := IsChildHasAncestor(x, t, parents, rank);
    }
    if exists k: nat :: Ancestor(x, k, parents) == Some(t) {
      var k: nat :| Ancestor(x, k, parents) == Some(t);
      AncestorIsChild(x, t, k, parents, rank);
    }
  }

  /** A successful walk names the number of steps it took. */
  lemma {:induction false} IsChildHasAncestor(x: Entity, t: Entity, parents: map<Entity, Entity>, rank: map<Entity, nat>)
    returns (k: nat)
    requires Ranked(parents, rank)
    requires IsChild(x, t, parents, rank)
    ensures Ancestor(x, k, parents) == Some(t)
    decreases if x in rank then rank[x] else 0
  {
    if x == t {
      k := 0;
    } else {
      var j := IsChildHasAncestor(parents[x], t, parents, rank);
      k := j + 1;
    }
  }

  /** Every ancestor is found by the walk. */
  lemma {:induction false} AncestorIsChild(x: Entity, t: Entity, k: nat, parents: map<Entity, Entity>, rank: map<Entity, nat>)
    requires Ranked(parents, rank)
    requires Ancestor(x, k, parents) == Some(t)
    ensures IsChild(x, t, parents, rank)
    decreases k
  {
    if k > 0 && x != t {
      AncestorIsChild(parents[x], t, k - 1, parents, rank);
    }
  }

  /** Every entity is a child of itself, and a child of the head's child is a child of the head. */
  lemma {:induction false} IsChildTransitive(x: Entity, y: Entity, z: Entity, parents: map<Entity, Entity>, rank: map<Entity, nat>)
    requires Ranked(parents, rank)
    requires IsChild(x, y, parents, rank) && IsChild(y, z, parents, rank)
    ensures IsChild(x, z, parents, rank)
    decreases if x in rank then rank[x] else 0
  {
    if x != y {
      IsChildTransitive(parents[x], y, z, parents, rank);
    }
  }

  // ---------------------------------------------------------------------
  // Marking the vertices skinned to the head subtree

  /** Vertex i has a joint slot that is the head or below it, with a positive weight. */
  ghost predicate Marked(i: nat, joints: seq<seq<nat>>, weights: seq<seq<real>>, skinJoints: seq<Entity>,
                         head: Entity, parents: map<Entity, Entity>, rank: map<Entity, nat>)
    requires SkinFits(joints, weights, skinJoints)
    requires Ranked(parents, rank)
    requires i < |joints|
  {
    exists j :: 0 <= j < 4 && IsChild(skinJoints[joints[i][j]], head, parents, rank) && weights[i][j] > 0.0
  }

  /** What the marking loop indexes without checking: four joint slots and
      four weights per vertex, and every joint index inside the skin. */
  predicate SkinFits(joints: seq<seq<nat>>, weights: seq<seq<real>>, skinJoints: seq<Entity>) {
    && |weights| == |joints|
    && (forall i :: 0 <= i < |joints| ==> |joints[i]| == 4 && |weights[i]| == 4)
    && (forall i, j :: 0 <= i < |joints| && 0 <= j < |joints[i]| ==> joints[i][j] < |skinJoints|)
  }

  /** The vertices the marking loop collects into its set. */
  ghost function HeadVertexSet(joints: seq<seq<nat>>, weights: seq<seq<real>>, skinJoints: seq<Entity>,
                               head: Entity, parents: map<Entity, Entity>, rank: map<Entity, nat>): set<nat>
    requires SkinFits(joints, weights, skinJoints)
    requires Ranked(parents, rank)
  {
    set v: nat | v < |joints| && Marked(v, joints, weights, skinJoints, head, parents, rank)
  }

  /** The members of m below n, from the highest down. */
  function Descending(m: set<nat>, n: nat): seq<nat> {
    if n == 0 then []
    else (if n - 1 in m then [n - 1] else []) + Descending(m, n - 1)
  }

  predicate StrictlyDescending(r: seq<nat>) {
    forall a, b :: 0 <= a < b < |r| ==> r[a] > r[b]
  }

  /** Descending(m, n) lists exactly the members of m below n, strictly
      decreasing (so without duplicates): the collected set sorted with
      `b.cmp(a)`. */
  lemma {:induction false} DescendingSpec(m: set<nat>, n: nat)
    ensures forall v: nat :: v in Descending(m, n) <==> v < n && v in m
    ensures StrictlyDescending(Descending(m, n))
  {
    if n > 0 {
      DescendingSpec(m, n - 1);
      var r := Descending(m, n);
      var rest := Descending(m, n - 1);
      if n - 1 in m {
        assert r == [n - 1] + rest;
        forall a, b | 0 <= a < b < |r|
          ensures r[a] > r[b]
        {
          assert r[b] == rest[b - 1];
          assert rest[b - 1] in rest;
          if a > 0 {
            assert r[a] == rest[a - 1];
          }
        }
      } else {
        assert r == rest;
      }
    }
  }

  /** The marking loop of `handle_setup_events`: the set of vertices with a
      head-subtree joint slot of positive weight. */
  method CollectHeadVertices(joints: seq<seq<nat>>, weights: seq<seq<real>>, skinJoints: seq<Entity>,
                             head: Entity, parents: map<Entity, Entity>, ghost rank: map<Entity, nat>)
    returns (marked: set<nat>)
    requires SkinFits(joints, weights, skinJoints)
    requires Ranked(parents, rank)
    ensures forall v: nat :: v in marked <==> v < |joints| && Marked(v, joints, weights, skinJoints, head, parents, rank)
  {
    marked := {};
    var i := 0;
    while i < |joints|
      invariant 0 <= i <= |joints|
      invariant forall v: nat :: v in marked <==> v < i && Marked(v, joints, weights, skinJoints, head, parents, rank)
    {
      var j := 0;
      ghost var before := marked;
      while j < 4
        invariant 0 <= j <= 4
        invariant marked == before || marked == before + {i}
        invariant i in marked <==> exists t :: 0 <= t < j && IsChild(skinJoints[joints[i][t]], head, parents, rank) && weights[i][t] > 0.0
      {
        var jointEnt := skinJoints[joints[i][j]];
        if IsChild(jointEnt, head, parents, rank) {
          if weights[i][j] > 0.0 {
            marked := marked + {i};
          }
        }
        j := j + 1;
      }
      i := i + 1;
    }
  }

  /** The collected set, turned into a list and sorted in descending order. */
  method SortDescending(marked: set<nat>, n: nat) returns (r: seq<nat>)
    requires forall v :: v in marked ==> v < n
    ensures r == Descending(marked, n)
  {
    r := [];
    var k := n;
    while k > 0
      invariant 0 <= k <= n
      invariant r + Descending(marked, k) == Descending(marked, n)
    {
      k := k - 1;
      if k in marked {
        r := r + [k];
      }
    }
  }

  /** The head-vertex removal list of an Auto mesh. */
  method MarkHeadVertices(joints: seq<seq<nat>>, weights: seq<seq<real>>, skinJoints: seq<Entity>,
                          head: Entity, parents: map<Entity, Entity>, ghost rank: map<Entity, nat>)
    returns (toRemove: seq<nat>)
    requires SkinFits(joints, weights, skinJoints)
    requires Ranked(parents, rank)
    ensures toRemove == Descending(HeadVertexSet(joints, weights, skinJoints, head, parents, rank), |joints|)
  {
    var marked := CollectHeadVertices(joints, weights, skinJoints, head, parents, rank);
    assert marked == HeadVertexSet(joints, weights, skinJoints, head, parents, rank);
    toRemove := SortDescending(marked, |joints|);
  }

  // ---------------------------------------------------------------------
  // Further properties of Kept

  /** Number of chunks Kept drops. */
  function TouchedCount(s: seq<nat>, vertices: seq<nat>): nat
    decreases |s|
  {
    if |s| == 0 then 0
    else
      var k := Min(3, |s|);
      (if Touches(s[..k], vertices) then 1 else 0) + TouchedCount(s[k..], vertices)
  }

  /** A buffer of whole triangles shrinks by three indices per touched triangle. */
  lemma {:induction false} KeptLength(s: seq<nat>, vertices: seq<nat>)
    requires |s| % 3 == 0
    ensures |Kept(s, vertices)| == |s| - 3 * TouchedCount(s, vertices)
    decreases |s|
  {
    if |s| > 0 {
      KeptLength(s[3..], vertices);
    }
  }

  /** No index of a listed vertex survives. */
  lemma {:induction false} KeptAvoids(s: seq<nat>, vertices: seq<nat>)
    ensures forall k :: 0 <= k < |Kept(s, vertices)| ==> Kept(s, vertices)[k] !in vertices
    decreases |s|
  {
    if |s| > 0 {
      var k := Min(3, |s|);
      KeptAvoids(s[k..], vertices);
      var head := if Touches(s[..k], vertices) then [] else s[..k];
      assert Kept(s, vertices) == head + Kept(s[k..], vertices);
      forall i | 0 <= i < |head|
        ensures head[i] !in vertices
      {
        assert head[i] == s[..k][i];
      }
    }
  }

  /** A buffer that mentions no listed vertex is left as it is. */
  lemma {:induction false} KeptUntouched(s: seq<nat>, vertices: seq<nat>)
    requires forall k :: 0 <= k < |s| ==> s[k] !in vertices
    ensures Kept(s, vertices) == s
    decreases |s|
  {
    if |s| > 0 {
      var k := Min(3, |s|);
      assert !Touches(s[..k], vertices);
      KeptUntouched(s[k..], vertices);
      assert s[..k] + s[k..] == s;
    }
  }

  /** Cleaning twice with the same list changes nothing more. */
  lemma KeptIdempotent(s: seq<nat>, vertices: seq<nat>)
    ensures Kept(Kept(s, vertices), vertices) == Kept(s, vertices)
  {
    KeptAvoids(s, vertices);
    KeptUntouched(Kept(s, vertices), vertices);
  }

  // ---------------------------------------------------------------------
  // Inserting the new entity into the copied skin's joint list

  /** `joints` with `newEnt` placed just before the first occurrence of
      `owner`, or unchanged when `owner` does not occur. */
  function InsertedBefore(joints: seq<Entity>, owner: Entity, newEnt: Entity): seq<Entity> {
    if |joints| == 0 then []
    else if joints[0] == owner then [newEnt] + joints
    else [joints[0]] + InsertedBefore(joints[1..], owner, newEnt)
  }

  /** Without the owner in the list, the insertion does nothing. */
  lemma {:induction false} InsertedBeforeAbsent(joints: seq<Entity>, owner: Entity, newEnt: Entity)
    requires owner !in joints
    ensures InsertedBefore(joints, owner, newEnt) == joints
  {
    if |joints| > 0 {
      InsertedBeforeAbsent(joints[1..], owner, newEnt);
      assert joints == [joints[0]] + joints[1..];
    }
  }

  /** With the owner in the list, the new entity lands just before its
      first occurrence i, and every other joint keeps its order. */
  lemma {:induction false} InsertedBeforeFirst(joints: seq<Entity>, owner: Entity, newEnt: Entity) returns (i: nat)
    requires owner in joints
    ensures i < |joints| && joints[i] == owner && owner !in joints[..i]
    ensures InsertedBefore(joints, owner, newEnt) == joints[..i] + [newEnt] + joints[i..]
  {
    if joints[0] == owner {
      i := 0;
      assert joints[..0] == [];
    } else {
      var tail := joints[1..];
      assert owner in tail by {
        var t :| 0 <= t < |joints| && joints[t] == owner;
        assert tail[t - 1] == owner;
      }
      var j := InsertedBeforeFirst(tail, owner, newEnt);
      i := j + 1;
      assert joints[..i] == [joints[0]] + tail[..j];
      assert joints[i..] == tail[j..];
    }
  }

  /** Splitting the walk: the part already scanned comes through unchanged. */
  lemma InsertedBeforeSplit(joints: seq<Entity>, owner: Entity, newEnt: Entity, i: nat)
    requires i < |joints| && owner !in joints[..i]
    ensures InsertedBefore(joints, owner, newEnt) == joints[..i] + InsertedBefore(joints[i..], owner, newEnt)
    decreases i
  {
    if i > 0 {
      assert joints[1..][..i - 1] == joints[1..i];
      assert owner !in joints[1..][..i - 1];
      InsertedBeforeSplit(joints[1..], owner, newEnt, i - 1);
      assert joints[1..][i - 1..] == joints[i..];
      assert joints[..i] == [joints[0]] + joints[1..i];
    }
  }

  /** The loop over `new_skin.joints` that inserts the new entity before the
      first joint equal to the mesh entity, then stops. */
  method InsertJoint(joints: seq<Entity>, owner: Entity, newEnt: Entity) returns (r: seq<Entity>)
    ensures r == InsertedBefore(joints, owner, newEnt)
  {
    r := joints;
    var i := 0;
    while i < |joints|
      invariant 0 <= i <= |joints|
      invariant owner !in joints[..i]
    {
      if joints[i] == owner {
        InsertedBeforeSplit(joints, owner, newEnt, i);
        r := joints[..i] + [newEnt] + joints[i..];
        return;
      }
      assert joints[..i + 1] == joints[..i] + [joints[i]];
      i := i + 1;
    }
    assert joints[..i] == joints;
    InsertedBeforeAbsent(joints, owner, newEnt);
  }

  // ---------------------------------------------------------------------
  // One flagged mesh of `handle_setup_events`

  /** The parts of a mesh asset the split reads; `None` stands for an
      attribute that is absent or stored in another format. */
  datatype MeshAsset = MeshAsset(joints: Option<seq<seq<nat>>>, weights: Option<seq<seq<real>>>, indices: Option<seq<nat>>)

  /** An entity carrying a `FirstPersonFlag` and a mesh handle, with what
      the scene knows about it: the mesh asset (if loaded) and the skin's
      joint list (if skinned). */
  datatype FlaggedMesh = FlaggedMesh(ent: Entity, flag: FirstPersonFlag, asset: Option<MeshAsset>, skin: Option<seq<Entity>>)

  /** What happens to one flagged mesh. `Skipped`: an Auto mesh without an
      asset, joint indices, joint weights or skin; it gets no layers.
      `Layered`: the mesh gets these layers. `Split`: the mesh gets `layers`,
      and a new child entity gets `childLayers`, the cleaned index buffer
      and the extended joint list. */
  datatype Outcome =
    | Skipped
    | Layered(layers: RenderLayers)
    | Split(layers: RenderLayers, child: Entity, childLayers: RenderLayers,
            childIndices: Option<seq<nat>>, childJoints: seq<Entity>)

  predicate Splittable(m: FlaggedMesh) {
    m.flag == Auto && m.asset.Some? && m.asset.value.joints.Some? && m.asset.value.weights.Some? && m.skin.Some?
  }

  /** A splittable mesh's attributes fit its skin (see SkinFits). */
  predicate MeshFits(m: FlaggedMesh) {
    Splittable(m) ==> SkinFits(m.asset.value.joints.value, m.asset.value.weights.value, m.skin.value)
  }

  /** The removal list computed for a splittable mesh. */
  ghost function MeshHeadVertices(m: FlaggedMesh, head: Entity, parents: map<Entity, Entity>, rank: map<Entity, nat>): seq<nat>
    requires Splittable(m) && MeshFits(m) && Ranked(parents, rank)
  {
    var a := m.asset.value;
    Descending(HeadVertexSet(a.joints.value, a.weights.value, m.skin.value, head, parents, rank), |a.joints.value|)
  }

  /** The outcome the source produces for one flagged mesh, or None when it
      panics (a touched short tail in the index buffer). */
  ghost function MeshOutcome(m: FlaggedMesh, head: Entity, parents: map<Entity, Entity>, rank: map<Entity, nat>, newEnt: Entity): Option<Outcome>
    requires MeshFits(m) && Ranked(parents, rank)
  {
    if m.flag != Auto then Some(Layered(SPLIT_RENDER_LAYERS[m.flag]))
    else if !Splittable(m) then Some(Skipped)
    else
      var v := MeshHeadVertices(m, head, parents, rank);
      var idx := m.asset.value.indices;
      if idx.Some? && ShortTailTouched(idx.value, v) then None
      else Some(Split(SPLIT_RENDER_LAYERS[ThirdPersonOnly], newEnt, SPLIT_RENDER_LAYERS[FirstPersonOnly],
                      if idx.Some? then Some(Kept(idx.value, v)) else None,
                      InsertedBefore(m.skin.value, m.ent, newEnt)))
  }

  /** The body of the `for (ent, flag, mesh_handle)` loop for one mesh;
      `newEnt` is the entity the scene world spawns for the first-person copy. */
  method SetupMesh(m: FlaggedMesh, head: Entity, parents: map<Entity, Entity>, ghost rank: map<Entity, nat>, newEnt: Entity)
    returns (o: Option<Outcome>)
    requires MeshFits(m) && Ranked(parents, rank)
    ensures o == MeshOutcome(m, head, parents, rank, newEnt)
  {
    var flag := m.flag;
    if flag == Auto {
      if m.asset.None? || m.asset.value.joints.None? || m.asset.value.weights.None? || m.skin.None? {
        return Some(Skipped);
      }
      var asset := m.asset.value;
      var skin := m.skin.value;
      var toRemove := MarkHeadVertices(asset.joints.value, asset.weights.value, skin, head, parents, rank);
      var childIndices: Option<seq<nat>> := None;
      if asset.indices.Some? {
        var cleaned := CleanIndices(asset.indices.value, toRemove);
        if cleaned.None? {
          return None;
        }
        childIndices := Some(cleaned.value);
      }
      var childJoints := InsertJoint(skin, m.ent, newEnt);
      flag := ThirdPersonOnly;
      return Some(Split(SPLIT_RENDER_LAYERS[flag], newEnt, SPLIT_RENDER_LAYERS[FirstPersonOnly], childIndices, childJoints));
    }
    return Some(Layered(SPLIT_RENDER_LAYERS[flag]));
  }

  /** A split mesh ends on the third-person layer only and its child on the
      first-person layer only; any other flag gets its own table entry; an
      Auto mesh never gets the Auto entry. */
  lemma OutcomeLayers(m: FlaggedMesh, head: Entity, parents: map<Entity, Entity>, rank: map<Entity, nat>, newEnt: Entity)
    requires MeshFits(m) && Ranked(parents, rank)
    ensures var o := MeshOutcome(m, head, parents, rank, newEnt);
      && (m.flag != Auto ==> o == Some(Layered(SPLIT_RENDER_LAYERS[m.flag])))
      && (m.flag == Auto && !Splittable(m) ==> o == Some(Skipped))
      && (o.Some? && o.value.Split? ==>
            o.value.layers == {THIRD_PERSON_LAYER} && o.value.childLayers == {FIRST_PERSON_LAYER}
            && o.value.child == newEnt)
      && (o.Some? && o.value.Layered? ==> m.flag != Auto)
  {
  }

  /** The first-person copy keeps no triangle that touches a head vertex,
      and its joint list is the original with the child inserted before
      the mesh entity. */
  lemma SplitChildAvoidsHead(m: FlaggedMesh, head: Entity, parents: map<Entity, Entity>, rank: map<Entity, nat>, newEnt: Entity)
    requires MeshFits(m) && Ranked(parents, rank)
    requires Splittable(m)
    requires MeshOutcome(m, head, parents, rank, newEnt).Some?
    ensures var o := MeshOutcome(m, head, parents, rank, newEnt).value;
      && o.Split?
      && (o.childIndices.Some? ==>
            forall k :: 0 <= k < |o.childIndices.value| ==>
              o.childIndices.value[k] !in MeshHeadVertices(m, head, parents, rank))
      && (m.ent !in m.skin.value ==> o.childJoints == m.skin.value)
      && (m.ent in m.skin.value ==> |o.childJoints| == |m.skin.value| + 1 && newEnt in o.childJoints)
  {
    var v := MeshHeadVertices(m, head, parents, rank);
    if m.asset.value.indices.Some? {
      KeptAvoids(m.asset.value.indices.value, v);
    }
    if m.ent in m.skin.value {
      var i := InsertedBeforeFirst(m.skin.value, m.ent, newEnt);
      assert (m.skin.value[..i] + [newEnt] + m.skin.value[i..])[i] == newEnt;
    } else {
      InsertedBeforeAbsent(m.skin.value, m.ent, newEnt);
    }
  }

  // ---------------------------------------------------------------------
  // One SetupFirstPerson event

  /** The first entity tagged `BoneName::Head`, as `find` returns it. */
  function HeadBone(bones: seq<(Entity, BoneName)>): (r: Option<Entity>)
    ensures r.None? <==> forall i :: 0 <= i < |bones| ==> bones[i].1 != Head
    ensures r.Some? ==> exists i :: 0 <= i < |bones| && bones[i] == (r.value, Head)
                          && forall j :: 0 <= j < i ==> bones[j].1 != Head
  {
    if |bones| == 0 then None
    else if bones[0].1 == Head then Some(bones[0].0)
    else
      var r := HeadBone(bones[1..]);
      if r.Some? then
        var i :| 0 <= i < |bones[1..]| && bones[1..][i] == (r.value, Head)
                 && forall j :: 0 <= j < i ==> bones[1..][j].1 != Head;
        assert bones[i + 1] == (r.value, Head);
        r
      else r
  }

  /** Handles one `SetupFirstPerson` event on a loaded scene. None stands
      for a panic: no Head bone (`unwrap`), or a mesh whose cleaning panics.
      `newEnts[k]` is the entity spawned for mesh k if it is split. */
  method HandleSetupEvent(bones: seq<(Entity, BoneName)>, meshes: seq<FlaggedMesh>,
                          parents: map<Entity, Entity>, ghost rank: map<Entity, nat>, newEnts: seq<Entity>)
    returns (r: Option<seq<Outcome>>)
    requires |newEnts| == |meshes|
    requires forall k :: 0 <= k < |meshes| ==> MeshFits(meshes[k])
    requires Ranked(parents, rank)
    ensures HeadBone(bones).None? ==> r.None?
    ensures HeadBone(bones).Some? ==>
      (r.Some? <==> forall k :: 0 <= k < |meshes| ==> MeshOutcome(meshes[k], HeadBone(bones).value, parents, rank, newEnts[k]).Some?)
    ensures r.Some? ==> (HeadBone(bones).Some? && |r.value| == |meshes|
      && forall k :: 0 <= k < |meshes| ==> Some(r.value[k]) == MeshOutcome(meshes[k], HeadBone(bones).value, parents, rank, newEnts[k]))
  {
    var head := HeadBone(bones);
    if head.None? {
      return None;
    }
    var outcomes: seq<Outcome> := [];
    var k := 0;
    while k < |meshes|
      invariant 0 <= k <= |meshes| && |outcomes| == k
      invariant forall t :: 0 <= t < k ==> Some(outcomes[t]) == MeshOutcome(meshes[t], head.value, parents, rank, newEnts[t])
    {
      var o := SetupMesh(meshes[k], head.value, parents, rank, newEnts[k]);
      if o.None? {
        return None;
      }
      outcomes := outcomes + [o.value];
      k := k + 1;
    }
    return Some(outcomes);
  }
}
