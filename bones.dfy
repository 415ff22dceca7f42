/** The 55 humanoid bone names of VRM 0.x (`serde_vrm::vrm0::BoneName`).
    The Rust enum is flat; here the sided and finger bones are grouped by
    side, finger and segment so that the arm, leg and finger builders can
    be written once, as the source's macros are. */
module Bones {

  datatype Side = Left | Right
  datatype Finger = Thumb | Index | Middle | Ring | Little
  datatype Segment = Proximal | Intermediate | Distal

  datatype BoneName =
    | Hips | Spine | Chest | UpperChest | Neck | Head | Jaw | LeftEye | RightEye
    | UpperLeg(legSide: Side) | LowerLeg(legSide: Side) | Foot(legSide: Side) | Toes(legSide: Side)
    | Shoulder(armSide: Side) | UpperArm(armSide: Side) | LowerArm(armSide: Side) | Hand(armSide: Side)
    | Digit(handSide: Side, finger: Finger, segment: Segment)

  function SidePrefix(s: Side): string {
    match s
    case Left => "left"
    case Right => "right"
  }

  function FingerWord(f: Finger): string {
    match f
    case Thumb => "Thumb"
    case Index => "Index"
    case Middle => "Middle"
    case Ring => "Ring"
    case Little => "Little"
  }

  function SegmentWord(g: Segment): string {
    match g
    case Proximal => "Proximal"
    case Intermediate => "Intermediate"
    case Distal => "Distal"
  }

  /** The name a bone carries in VRM 0.x JSON (`#[serde(rename = ...)]`). */
  function JsonName(b: BoneName): string {
    match b
    case Hips => "hips"
    case Spine => "spine"
    case Chest => "chest"
    case UpperChest => "upperChest"
    case Neck => "neck"
    case Head => "head"
    case Jaw => "jaw"
    case LeftEye => "leftEye"
    case RightEye => "rightEye"
    case UpperLeg(s) => SidePrefix(s) + "UpperLeg"
    case LowerLeg(s) => SidePrefix(s) + "LowerLeg"
    case Foot(s) => SidePrefix(s) + "Foot"
    case Toes(s) => SidePrefix(s) + "Toes"
    case Shoulder(s) => SidePrefix(s) + "Shoulder"
    case UpperArm(s) => SidePrefix(s) + "UpperArm"
    case LowerArm(s) => SidePrefix(s) + "LowerArm"
    case Hand(s) => SidePrefix(s) + "Hand"
    case Digit(s, f, g) => SidePrefix(s) + FingerWord(f) + SegmentWord(g)
  }
}
