/** `VRM_ANIMATION_TARGETS` (`crates/bevy_vrm/src/animations/vrm.rs`): for
    each of the 55 humanoid bones, the animation target id of the path of
    bone names from Hips down to that bone. The table is built by pushing
    names onto one chain and onto clones of it, as the `push_bone!`,
    `finger!`, `arm!` and `leg!` macros do. */
module AnimationTargets {
  import opened Wrappers
  import opened Bones
  import opened TargetChains

  /** The text a bone name contributes to a path (its `to_string()`).
      The `Display` of `serde_vrm`'s `BoneName` is not part of this model;
      the model takes it to be the bone's JSON name. */
  function BoneText(b: BoneName): string {
    JsonName(b)
  }

  /** Distance from Hips in the skeleton the table encodes. */
  function Depth(b: BoneName): nat {
    match b
    case Hips => 0
    case UpperLeg(_) => 1
    case LowerLeg(_) => 2
    case Foot(_) => 3
    case Toes(_) => 4
    case Spine => 1
    case Chest => 2
    case UpperChest => 3
    case Shoulder(_) => 4
    case UpperArm(_) => 5
    case LowerArm(_) => 6
    case Hand(_) => 7
    case Digit(_, _, Proximal) => 8
    case Digit(_, _, Intermediate) => 9
    case Digit(_, _, Distal) => 10
    case Neck => 4
    case Head => 5
    case Jaw => 6
    case LeftEye => 6
    case RightEye => 6
  }

  /** The bone whose chain a bone is pushed onto: legs hang off Hips, arms
      off UpperChest, each finger off its hand, Jaw and the eyes off Head. */
  function BoneParent(b: BoneName): (p: Option<BoneName>)
    ensures p.None? <==> b == Hips
    ensures p.Some? ==> Depth(p.value) + 1 == Depth(b)
  {
    match b
    case Hips => None
    case UpperLeg(_) => Some(Hips)
    case LowerLeg(s) => Some(UpperLeg(s))
    case Foot(s) => Some(LowerLeg(s))
    case Toes(s) => Some(Foot(s))
    case Spine => Some(Hips)
    case Chest => Some(Spine)
    case UpperChest => Some(Chest)
    case Shoulder(_) => Some(UpperChest)
    case UpperArm(s) => Some(Shoulder(s))
    case LowerArm(s) => Some(UpperArm(s))
    case Hand(s) => Some(LowerArm(s))
    case Digit(s, f, Proximal) => Some(Hand(s))
    case Digit(s, f, Intermediate) => Some(Digit(s, f, Proximal))
    case Digit(s, f, Distal) => Some(Digit(s, f, Intermediate))
    case Neck => Some(UpperChest)
    case Head => Some(Neck)
    case Jaw => Some(Head)
    case LeftEye => Some(Head)
    case RightEye => Some(Head)
  }

  /** The bones from Hips down to b. */
  function Path(b: BoneName): (p: seq<BoneName>)
    ensures |p| == Depth(b) + 1
    ensures p[0] == Hips && p[|p| - 1] == b
    decreases Depth(b)
  {
    match BoneParent(b)
    case None => [b]
    case Some(q) => Path(q) + [b]
  }

  /** The names of a path of bones. */
  function Names(p: seq<BoneName>): (n: seq<string>)
    ensures |n| == |p|
  {
    if |p| == 0 then [] else Names(p[..|p| - 1]) + [BoneText(p[|p| - 1])]
  }

  /** The names a chain holds once b has been pushed onto its parent's
      chain: the parent's names, then b's own. */
  function PathNames(b: BoneName): (n: seq<string>)
    ensures |n| == Depth(b) + 1
    decreases Depth(b)
  {
    match BoneParent(b)
    case None => [BoneText(b)]
    case Some(q) => PathNames(q) + [BoneText(b)]
  }

  /** The id the table holds for b. */
  function TargetFor(b: BoneName): AnimationTargetId {
    TargetId(PathNames(b))
  }

  /** A table whose every entry is the id of its bone's path. */
  ghost predicate Correct(m: map<BoneName, AnimationTargetId>) {
    forall b :: b in m ==> m[b] == TargetFor(b)
  }

  // ---------------------------------------------------------------------
  // The order in which the macros insert the bones

  function LegOrder(s: Side): seq<BoneName> {
    [UpperLeg(s), LowerLeg(s), Foot(s), Toes(s)]
  }

  function FingerOrder(s: Side, f: Finger): seq<BoneName> {
    [Digit(s, f, Proximal), Digit(s, f, Intermediate), Digit(s, f, Distal)]
  }

  function HandOrder(s: Side): seq<BoneName> {
    FingerOrder(s, Thumb) + FingerOrder(s, Index) + FingerOrder(s, Middle) + FingerOrder(s, Ring) + FingerOrder(s, Little)
  }

  function ArmTopOrder(s: Side): seq<BoneName> {
    [Shoulder(s), UpperArm(s), LowerArm(s), Hand(s)]
  }

  function ArmOrder(s: Side): seq<BoneName> {
    ArmTopOrder(s) + HandOrder(s)
  }

  function SpineOrder(): seq<BoneName> {
    [Spine, Chest, UpperChest]
  }

  function TrunkOrder(): seq<BoneName> {
    [Hips] + LegOrder(Left) + LegOrder(Right) + SpineOrder()
  }

  function HeadOrder(): seq<BoneName> {
    [Neck, Head, Jaw, LeftEye, RightEye]
  }

  /** The order of the `push_bone!` calls of `VRM_ANIMATION_TARGETS`. */
  function InsertionOrder(): seq<BoneName> {
    TrunkOrder() + ArmOrder(Left) + ArmOrder(Right) + HeadOrder()
  }

  /** The table after inserting, in order, the target of each listed bone. */
  function Extend(m: map<BoneName, AnimationTargetId>, bs: seq<BoneName>): map<BoneName, AnimationTargetId>
    decreases |bs|
  {
    if |bs| == 0 then m else Extend(m[bs[0] := TargetFor(bs[0])], bs[1..])
  }

  lemma {:induction false} ExtendAppend(m: map<BoneName, AnimationTargetId>, a: seq<BoneName>, b: seq<BoneName>)
    ensures Extend(m, a + b) == Extend(Extend(m, a), b)
    decreases |a|
  {
    if |a| > 0 {
      assert (a + b)[1..] == a[1..] + b;
      ExtendAppend(m[a[0] := TargetFor(a[0])], a[1..], b);
    } else {
      assert a + b == b;
    }
  }

  lemma ExtendOne(m: map<BoneName, AnimationTargetId>, b: BoneName)
    ensures Extend(m, [b]) == m[b := TargetFor(b)]
  {
    assert Extend(m[b := TargetFor(b)], []) == m[b := TargetFor(b)];
  }

  lemma ExtendFour(m: map<BoneName, AnimationTargetId>, bs: seq<BoneName>)
    requires |bs| == 4
    ensures Extend(m, bs) == m[bs[0] := TargetFor(bs[0])][bs[1] := TargetFor(bs[1])]
                              [bs[2] := TargetFor(bs[2])][bs[3] := TargetFor(bs[3])]
  {
    ExtendAppend(m, bs[..2], bs[2..]);
    assert bs[..2] == [bs[0]] + [bs[1]];
    ExtendAppend(m, [bs[0]], [bs[1]]);
    ExtendOne(m, bs[0]);
    ExtendOne(m[bs[0] := TargetFor(bs[0])], bs[1]);
    assert bs[2..] == [bs[2]] + [bs[3]];
    var m2 := Extend(m, bs[..2]);
    ExtendAppend(m2, [bs[2]], [bs[3]]);
    ExtendOne(m2, bs[2]);
    ExtendOne(m2[bs[2] := TargetFor(bs[2])], bs[3]);
  }

  lemma ExtendThree(m: map<BoneName, AnimationTargetId>, a: BoneName, b: BoneName, c: BoneName)
    ensures Extend(m, [a, b, c]) == m[a := TargetFor(a)][b := TargetFor(b)][c := TargetFor(c)]
  {
    var m1 := m[a := TargetFor(a)];
    assert [a, b, c] == [a] + [b, c];
    assert [b, c] == [b] + [c];
    ExtendAppend(m, [a], [b, c]);
    ExtendOne(m, a);
    ExtendAppend(m1, [b], [c]);
    ExtendOne(m1, b);
    ExtendOne(m1[b := TargetFor(b)], c);
  }

  /** Extending adds exactly the listed bones, each with its path's id. */
  lemma {:induction false} ExtendSpec(m: map<BoneName, AnimationTargetId>, bs: seq<BoneName>)
    ensures forall b :: b in Extend(m, bs) <==> b in m || b in bs
    ensures forall b :: b in Extend(m, bs) ==> Extend(m, bs)[b] == if b in bs then TargetFor(b) else m[b]
    decreases |bs|
  {
    if |bs| > 0 {
      ExtendSpec(m[bs[0] := TargetFor(bs[0])], bs[1..]);
      assert bs == [bs[0]] + bs[1..];
    }
  }

  // ---------------------------------------------------------------------
  // Building the table

  /** `push_bone!`: pushes the bone's name and stores the chain's new id. */
  method PushBone(targets: map<BoneName, AnimationTargetId>, chain: TargetChain, b: BoneName)
    returns (r: map<BoneName, AnimationTargetId>)
    modifies chain
    ensures chain.names == old(chain.names) + [old(chain.prefix) + BoneText(b)]
    ensures chain.prefix == old(chain.prefix)
    ensures r == targets[b := TargetId(chain.names)]
  {
    var id := chain.PushTarget(BoneText(b));
    r := targets[b := id];
  }

  /** The names a chain holds are the names of the bones on the path from
      Hips. */
  lemma {:induction false} PathNamesMatch(b: BoneName)
    ensures PathNames(b) == Names(Path(b))
    decreases Depth(b)
  {
    match BoneParent(b)
    case None =>
    case Some(q) =>
      PathNamesMatch(q);
      var p := Path(q) + [b];
      assert p[..|p| - 1] == Path(q);
  }

  /** `push_bone!` on a chain that holds the parent's path. */
  method PushChild(targets: map<BoneName, AnimationTargetId>, chain: TargetChain, b: BoneName, q: BoneName)
    returns (r: map<BoneName, AnimationTargetId>)
    requires chain.prefix == "" && chain.names == PathNames(q) && BoneParent(b) == Some(q)
    modifies chain
    ensures chain.prefix == "" && chain.names == PathNames(b)
    ensures r == targets[b := TargetFor(b)]
  {
    r := PushBone(targets, chain, b);
    assert "" + BoneText(b) == BoneText(b);
  }

  /** `finger!`: on a clone of the hand's chain, the three segments; the
      hand's chain itself is left as it was. */
  method FingerTargets(targets: map<BoneName, AnimationTargetId>, chain: TargetChain, s: Side, f: Finger)
    returns (r: map<BoneName, AnimationTargetId>)
    requires chain.prefix == "" && chain.names == PathNames(Hand(s))
    ensures r == Extend(targets, FingerOrder(s, f))
  {
    var c := new TargetChain.Clone(chain);
    FingerParents(s, f);
    r := PushSegments(targets, c, Hand(s), Digit(s, f, Proximal), Digit(s, f, Intermediate), Digit(s, f, Distal));
  }

  lemma SpineParents()
    ensures BoneParent(Spine) == Some(Hips)
    ensures BoneParent(Chest) == Some(Spine)
    ensures BoneParent(UpperChest) == Some(Chest)
  {
  }

  lemma LegParents(s: Side)
    ensures BoneParent(UpperLeg(s)) == Some(Hips)
    ensures BoneParent(LowerLeg(s)) == Some(UpperLeg(s))
    ensures BoneParent(Foot(s)) == Some(LowerLeg(s))
    ensures BoneParent(Toes(s)) == Some(Foot(s))
  {
  }

  lemma ArmParents(s: Side)
    ensures BoneParent(Shoulder(s)) == Some(UpperChest)
    ensures BoneParent(UpperArm(s)) == Some(Shoulder(s))
    ensures BoneParent(LowerArm(s)) == Some(UpperArm(s))
    ensures BoneParent(Hand(s)) == Some(LowerArm(s))
  {
  }

  lemma FingerParents(s: Side, f: Finger)
    ensures BoneParent(Digit(s, f, Proximal)) == Some(Hand(s))
    ensures BoneParent(Digit(s, f, Intermediate)) == Some(Digit(s, f, Proximal))
    ensures BoneParent(Digit(s, f, Distal)) == Some(Digit(s, f, Intermediate))
  {
  }

  /** Three `push_bone!` calls on one chain, each bone hanging off the one
      before: the segments of `finger!`, and Spine, Chest and UpperChest. */
  method PushSegments(targets: map<BoneName, AnimationTargetId>, c: TargetChain, h: BoneName, p: BoneName, i: BoneName, d: BoneName)
    returns (r: map<BoneName, AnimationTargetId>)
    requires c.prefix == "" && c.names == PathNames(h)
    requires BoneParent(p) == Some(h) && BoneParent(i) == Some(p) && BoneParent(d) == Some(i)
    modifies c
    ensures c.prefix == "" && c.names == PathNames(d)
    ensures r == Extend(targets, [p, i, d])
  {
    r := PushChild(targets, c, p, h);
    r := PushChild(r, c, i, p);
    r := PushChild(r, c, d, i);
    ExtendThree(targets, p, i, d);
  }

  /** `arm!`: on a clone of the UpperChest chain, shoulder to hand, then
      the five fingers, each on its own clone of the hand chain. */
  method ArmTargets(targets: map<BoneName, AnimationTargetId>, chain: TargetChain, s: Side)
    returns (r: map<BoneName, AnimationTargetId>)
    requires chain.prefix == "" && chain.names == PathNames(UpperChest)
    ensures r == Extend(targets, ArmOrder(s))
  {
    var c := new TargetChain.Clone(chain);
    r := ArmTop(targets, c, s);
    r := HandTargets(r, c, s);
    ExtendAppend(targets, ArmTopOrder(s), HandOrder(s));
  }

  /** The first half of `arm!`: shoulder, upper arm, lower arm and hand,
      each pushed onto the arm's chain. */
  method ArmTop(targets: map<BoneName, AnimationTargetId>, c: TargetChain, s: Side)
    returns (r: map<BoneName, AnimationTargetId>)
    requires c.prefix == "" && c.names == PathNames(UpperChest)
    modifies c
    ensures c.prefix == "" && c.names == PathNames(Hand(s))
    ensures r == Extend(targets, ArmTopOrder(s))
  {
    ArmParents(s);
    r := PushChild(targets, c, Shoulder(s), UpperChest);
    r := PushChild(r, c, UpperArm(s), Shoulder(s));
    r := PushChild(r, c, LowerArm(s), UpperArm(s));
    r := PushChild(r, c, Hand(s), LowerArm(s));
    ExtendFour(targets, ArmTopOrder(s));
  }

  /** The five `finger!` calls of `arm!`, each on its own clone of the
      hand's chain. */
  method HandTargets(targets: map<BoneName, AnimationTargetId>, c: TargetChain, s: Side)
    returns (r: map<BoneName, AnimationTargetId>)
    requires c.prefix == "" && c.names == PathNames(Hand(s))
    ensures r == Extend(targets, HandOrder(s))
  {
    r := FingerTargets(targets, c, s, Thumb);
    r := FingerTargets(r, c, s, Index);
    r := FingerTargets(r, c, s, Middle);
    r := FingerTargets(r, c, s, Ring);
    r := FingerTargets(r, c, s, Little);
    HandSteps(targets, s);
  }

  /** The five finger macros one after the other. */
  lemma HandSteps(m: map<BoneName, AnimationTargetId>, s: Side)
    ensures Extend(Extend(Extend(Extend(Extend(m, FingerOrder(s, Thumb)), FingerOrder(s, Index)),
              FingerOrder(s, Middle)), FingerOrder(s, Ring)), FingerOrder(s, Little))
            == Extend(m, HandOrder(s))
  {
    var t, i, d, g, l := FingerOrder(s, Thumb), FingerOrder(s, Index), FingerOrder(s, Middle), FingerOrder(s, Ring), FingerOrder(s, Little);
    ExtendAppend(m, t, i);
    ExtendAppend(m, t + i, d);
    ExtendAppend(m, t + i + d, g);
    ExtendAppend(m, t + i + d + g, l);
  }

  /** `leg!`: on a clone of the Hips chain, upper leg to toes. */
  method LegTargets(targets: map<BoneName, AnimationTargetId>, chain: TargetChain, s: Side)
    returns (r: map<BoneName, AnimationTargetId>)
    requires chain.prefix == "" && chain.names == PathNames(Hips)
    ensures r == Extend(targets, LegOrder(s))
  {
    var c := new TargetChain.Clone(chain);
    LegParents(s);
    r := PushChild(targets, c, UpperLeg(s), Hips);
    r := PushChild(r, c, LowerLeg(s), UpperLeg(s));
    r := PushChild(r, c, Foot(s), LowerLeg(s));
    r := PushChild(r, c, Toes(s), Foot(s));
    ExtendFour(targets, LegOrder(s));
  }

  /** Hips, both legs (each on a clone), then Spine, Chest and UpperChest
      on the main chain. */
  method TrunkTargets(chain: TargetChain) returns (targets: map<BoneName, AnimationTargetId>)
    requires chain.prefix == "" && chain.names == []
    modifies chain
    ensures chain.prefix == "" && chain.names == PathNames(UpperChest)
    ensures targets == Extend(map[], TrunkOrder())
  {
    targets := PushBone(map[], chain, Hips);
    assert "" + BoneText(Hips) == BoneText(Hips);
    assert PathNames(Hips) == [BoneText(Hips)];
    ExtendOne(map[], Hips);
    targets := LegTargets(targets, chain, Left);
    targets := LegTargets(targets, chain, Right);
    SpineParents();
    targets := PushSegments(targets, chain, Hips, Spine, Chest, UpperChest);
    ExtendAppend(map[], [Hips], LegOrder(Left));
    ExtendAppend(map[], [Hips] + LegOrder(Left), LegOrder(Right));
    ExtendAppend(map[], [Hips] + LegOrder(Left) + LegOrder(Right), SpineOrder());
  }

  /** Neck and Head on the main chain, then Jaw and each eye on its own
      clone of the Head chain. */
  method HeadTargets(targets: map<BoneName, AnimationTargetId>, chain: TargetChain) returns (r: map<BoneName, AnimationTargetId>)
    requires chain.prefix == "" && chain.names == PathNames(UpperChest)
    modifies chain
    ensures r == Extend(targets, HeadOrder())
  {
    r := PushChild(targets, chain, Neck, UpperChest);
    r := PushChild(r, chain, Head, Neck);
    var jaw := new TargetChain.Clone(chain);
    r := PushChild(r, jaw, Jaw, Head);
    var leftEye := new TargetChain.Clone(chain);
    r := PushChild(r, leftEye, LeftEye, Head);
    var rightEye := new TargetChain.Clone(chain);
    r := PushChild(r, rightEye, RightEye, Head);
    ghost var o := HeadOrder();
    assert o[1..][1..][1..][1..][1..] == [];
  }

  /** The `LazyLock` initialiser of `VRM_ANIMATION_TARGETS`. */
  method BuildTargets() returns (targets: map<BoneName, AnimationTargetId>)
    ensures targets == Extend(map[], InsertionOrder())
  {
    var chain := new TargetChain();
    targets := TrunkTargets(chain);
    targets := ArmTargets(targets, chain, Left);
    targets := ArmTargets(targets, chain, Right);
    targets := HeadTargets(targets, chain);
    ExtendAppend(map[], TrunkOrder(), ArmOrder(Left));
    ExtendAppend(map[], TrunkOrder() + ArmOrder(Left), ArmOrder(Right));
    ExtendAppend(map[], TrunkOrder() + ArmOrder(Left) + ArmOrder(Right), HeadOrder());
  }

  // ---------------------------------------------------------------------
  // Properties of the table

  lemma InHandOrder(b: BoneName)
    requires b.Digit?
    ensures b in HandOrder(b.handSide)
  {
    var s, f, g := b.handSide, b.finger, b.segment;
    assert b in FingerOrder(s, f) by {
      match g
      case Proximal => assert FingerOrder(s, f)[0] == b;
      case Intermediate => assert FingerOrder(s, f)[1] == b;
      case Distal => assert FingerOrder(s, f)[2] == b;
    }
    match f
    case Thumb =>
    case Index =>
    case Middle =>
    case Ring =>
    case Little =>
  }

  /** Each of the 55 bone names is inserted. */
  lemma EveryBoneInserted(b: BoneName)
    ensures b in InsertionOrder()
  {
    var o := InsertionOrder();
    match b {
      case Digit(s, _, _) =>
        InHandOrder(b);
        assert b in ArmOrder(s);
        match s { case Left => case Right => }
      case Shoulder(s) => assert b in ArmOrder(s); match s { case Left => case Right => }
      case UpperArm(s) => assert b in ArmOrder(s); match s { case Left => case Right => }
      case LowerArm(s) => assert b in ArmOrder(s); match s { case Left => case Right => }
      case Hand(s) => assert b in ArmOrder(s); match s { case Left => case Right => }
      case UpperLeg(s) => assert b in LegOrder(s); match s { case Left => case Right => }
      case LowerLeg(s) => assert b in LegOrder(s); match s { case Left => case Right => }
      case Foot(s) => assert b in LegOrder(s); match s { case Left => case Right => }
      case Toes(s) => assert b in LegOrder(s); match s { case Left => case Right => }
      case _ =>
    }
  }

  /** The built table has an entry for every bone, and each entry is the
      id of that bone's path. */
  lemma TableIsComplete()
    ensures forall b: BoneName :: b in Extend(map[], InsertionOrder())
    ensures forall b: BoneName :: Extend(map[], InsertionOrder())[b] == TargetFor(b)
  {
    ExtendSpec(map[], InsertionOrder());
    forall b: BoneName
      ensures b in InsertionOrder()
    {
      EveryBoneInserted(b);
    }
  }

  /** Every entry's name path starts at Hips and ends with the bone's own
      name. */
  lemma {:induction false} TargetEndsWithOwnName(b: BoneName)
    ensures |TargetFor(b).path| == Depth(b) + 1
    ensures TargetFor(b).path[0] == BoneText(Hips)
    ensures TargetFor(b).path[|TargetFor(b).path| - 1] == BoneText(b)
    decreases Depth(b)
  {
    match BoneParent(b)
    case None =>
    case Some(q) =>
      TargetEndsWithOwnName(q);
      assert TargetFor(b).path == TargetFor(q).path + [BoneText(b)];
  }

  /** Each name of an entry is the name of the bone at the same place on
      the bone's path from Hips. */
  lemma TargetNamesPath(b: BoneName)
    ensures forall i :: 0 <= i < |TargetFor(b).path| ==> TargetFor(b).path[i] == BoneText(Path(b)[i])
  {
    PathNamesMatch(b);
    NamesAt(Path(b));
  }

  lemma {:induction false} NamesAt(p: seq<BoneName>)
    ensures forall i :: 0 <= i < |p| ==> Names(p)[i] == BoneText(p[i])
  {
    if |p| > 0 {
      NamesAt(p[..|p| - 1]);
    }
  }

  /** The clones leave the main chain alone: Spine hangs directly off Hips. */
  lemma SpinePath()
    ensures Path(Spine) == [Hips, Spine]
  {
  }

  /** A leg runs Hips, upper leg, lower leg, foot, toes. */
  lemma LegPath(s: Side)
    ensures Path(Toes(s)) == [Hips] + LegOrder(s)
  {
    LegParents(s);
    ChildPath(UpperLeg(s), Hips);
    GrandchildPaths(UpperLeg(s), LowerLeg(s), Foot(s), Toes(s));
  }

  /** Arms hang off UpperChest. */
  lemma ShoulderPath(s: Side)
    ensures Path(Shoulder(s)) == [Hips, Spine, Chest, UpperChest, Shoulder(s)]
  {
    ArmParents(s);
    ChildPath(Shoulder(s), UpperChest);
    GrandchildPaths(Hips, Spine, Chest, UpperChest);
  }

  /** A bone's path is its parent's path and the bone. */
  lemma ChildPath(b: BoneName, q: BoneName)
    requires BoneParent(b) == Some(q)
    ensures Path(b) == Path(q) + [b]
  {
  }

  /** Three bones each hanging off the one before extend the path of the
      first one's parent by all three. */
  lemma GrandchildPaths(h: BoneName, p: BoneName, i: BoneName, d: BoneName)
    requires BoneParent(p) == Some(h) && BoneParent(i) == Some(p) && BoneParent(d) == Some(i)
    ensures Path(d) == Path(h) + [p, i, d]
  {
    ChildPath(p, h);
    ChildPath(i, p);
    ChildPath(d, i);
    assert Path(h) + [p] + [i] + [d] == Path(h) + [p, i, d];
  }

  /** Each finger branches from its own hand. */
  lemma FingerPaths(s: Side, f: Finger)
    ensures Path(Digit(s, f, Proximal)) == Path(Hand(s)) + [Digit(s, f, Proximal)]
    ensures Path(Digit(s, f, Distal)) == Path(Hand(s)) + FingerOrder(s, f)
  {
    var p, i, d := Digit(s, f, Proximal), Digit(s, f, Intermediate), Digit(s, f, Distal);
    FingerParents(s, f);
    ChildPath(p, Hand(s));
    GrandchildPaths(Hand(s), p, i, d);
  }

  /** Jaw and the eyes are each the Head path plus one name. */
  lemma FacePaths()
    ensures Path(Jaw) == Path(Head) + [Jaw]
    ensures Path(LeftEye) == Path(Head) + [LeftEye]
    ensures Path(RightEye) == Path(Head) + [RightEye]
  {
    ChildPath(Jaw, Head);
    ChildPath(LeftEye, Head);
    ChildPath(RightEye, Head);
  }

  /** The table is prefix-closed: dropping the last bone of any path but
      Hips' gives another bone's path. */
  lemma PrefixClosed(b: BoneName)
    requires b != Hips
    ensures exists c :: Path(c) == Path(b)[..|Path(b)| - 1]
  {
    var q := BoneParent(b).value;
    assert Path(b) == Path(q) + [b];
    assert Path(b)[..|Path(b)| - 1] == Path(q);
  }

  function Indicator(c: bool): nat {
    if c then 1 else 0
  }

  lemma FingerCount(s: Side, f: Finger, b: BoneName)
    ensures multiset(FingerOrder(s, f))[b] == Indicator(b.Digit? && b.handSide == s && b.finger == f)
  {
    if b.Digit? && b.handSide == s && b.finger == f {
      match b.segment {
        case Proximal => assert b == Digit(s, f, Proximal);
        case Intermediate => assert b == Digit(s, f, Intermediate);
        case Distal => assert b == Digit(s, f, Distal);
      }
    }
  }

  lemma HandCount(s: Side, b: BoneName)
    ensures multiset(HandOrder(s))[b] == Indicator(b.Digit? && b.handSide == s)
  {
    assert multiset(HandOrder(s)) ==
           multiset(FingerOrder(s, Thumb)) + multiset(FingerOrder(s, Index)) + multiset(FingerOrder(s, Middle)) +
           multiset(FingerOrder(s, Ring)) + multiset(FingerOrder(s, Little));
    FingerCount(s, Thumb, b);
    FingerCount(s, Index, b);
    FingerCount(s, Middle, b);
    FingerCount(s, Ring, b);
    FingerCount(s, Little, b);
    if b.Digit? {
      match b.finger {
        case Thumb =>
        case Index =>
        case Middle =>
        case Ring =>
        case Little =>
      }
    }
  }

  lemma ArmTopCount(s: Side, b: BoneName)
    ensures multiset(ArmTopOrder(s))[b] == Indicator((b.Shoulder? || b.UpperArm? || b.LowerArm? || b.Hand?) && b.armSide == s)
  {
  }

  lemma ArmCount(s: Side, b: BoneName)
    ensures multiset(ArmOrder(s))[b] == Indicator(
      ((b.Shoulder? || b.UpperArm? || b.LowerArm? || b.Hand?) && b.armSide == s) || (b.Digit? && b.handSide == s))
  {
    assert multiset(ArmOrder(s)) == multiset(ArmTopOrder(s)) + multiset(HandOrder(s));
    ArmTopCount(s, b);
    HandCount(s, b);
  }

  lemma LegCount(s: Side, b: BoneName)
    ensures multiset(LegOrder(s))[b] == Indicator((b.UpperLeg? || b.LowerLeg? || b.Foot? || b.Toes?) && b.legSide == s)
  {
  }

  lemma SpineCount(b: BoneName)
    ensures multiset(SpineOrder())[b] == Indicator(b == Spine || b == Chest || b == UpperChest)
  {
  }

  /** How often x occurs in four lists one after the other. */
  lemma CountFour(a: seq<BoneName>, b: seq<BoneName>, c: seq<BoneName>, d: seq<BoneName>, x: BoneName)
    ensures multiset(a + b + c + d)[x] == multiset(a)[x] + multiset(b)[x] + multiset(c)[x] + multiset(d)[x]
  {
  }

  lemma TrunkCount(b: BoneName)
    ensures multiset(TrunkOrder())[b] == Indicator(
      b == Hips || b == Spine || b == Chest || b == UpperChest
      || ((b.UpperLeg? || b.LowerLeg? || b.Foot? || b.Toes?)))
  {
    CountFour([Hips], LegOrder(Left), LegOrder(Right), SpineOrder(), b);
    LegCount(Left, b);
    LegCount(Right, b);
    SpineCount(b);
    TrunkRegion(b, multiset([Hips])[b], multiset(LegOrder(Left))[b], multiset(LegOrder(Right))[b], multiset(SpineOrder())[b]);
  }

  /** A trunk bone is Hips, on exactly one leg, or on the spine. */
  lemma TrunkRegion(b: BoneName, hips: nat, l: nat, r: nat, spine: nat)
    requires hips == Indicator(b == Hips)
    requires l == Indicator((b.UpperLeg? || b.LowerLeg? || b.Foot? || b.Toes?) && b.legSide == Left)
    requires r == Indicator((b.UpperLeg? || b.LowerLeg? || b.Foot? || b.Toes?) && b.legSide == Right)
    requires spine == Indicator(b == Spine || b == Chest || b == UpperChest)
    ensures hips + l + r + spine == Indicator(b == Hips || b == Spine || b == Chest || b == UpperChest
                                              || ((b.UpperLeg? || b.LowerLeg? || b.Foot? || b.Toes?)))
  {
    if b.UpperLeg? || b.LowerLeg? || b.Foot? || b.Toes? {
      match b.legSide { case Left => case Right => }
    }
  }

  lemma HeadCount(b: BoneName)
    ensures multiset(HeadOrder())[b] == Indicator(b == Neck || b == Head || b == Jaw || b == LeftEye || b == RightEye)
  {
  }

  /** Each of the 55 bone names is inserted exactly once. */
  lemma InsertedOnce(b: BoneName)
    ensures multiset(InsertionOrder())[b] == 1
  {
    CountFour(TrunkOrder(), ArmOrder(Left), ArmOrder(Right), HeadOrder(), b);
    TrunkCount(b);
    ArmCount(Left, b);
    ArmCount(Right, b);
    HeadCount(b);
    OneRegion(b, multiset(TrunkOrder())[b], multiset(ArmOrder(Left))[b], multiset(ArmOrder(Right))[b], multiset(HeadOrder())[b]);
  }

  /** Every bone belongs to exactly one of the trunk, the left arm, the
      right arm and the head. */
  lemma OneRegion(b: BoneName, t: nat, l: nat, r: nat, h: nat)
    requires t == Indicator(b == Hips || b == Spine || b == Chest || b == UpperChest
                            || ((b.UpperLeg? || b.LowerLeg? || b.Foot? || b.Toes?)))
    requires l == Indicator(((b.Shoulder? || b.UpperArm? || b.LowerArm? || b.Hand?) && b.armSide == Left)
                            || (b.Digit? && b.handSide == Left))
    requires r == Indicator(((b.Shoulder? || b.UpperArm? || b.LowerArm? || b.Hand?) && b.armSide == Right)
                            || (b.Digit? && b.handSide == Right))
    requires h == Indicator(b == Neck || b == Head || b == Jaw || b == LeftEye || b == RightEye)
    ensures t + l + r + h == 1
  {
    if b.Shoulder? || b.UpperArm? || b.LowerArm? || b.Hand? {
      match b.armSide { case Left => case Right => }
    } else if b.Digit? {
      match b.handSide { case Left => case Right => }
    }
  }
}
