/** The plugin's reflection-visible mirrors of WFC++ value types
    (WfcDataReflection.h): directions, face and cube point-ID records,
    cube transforms and the implicit transform set, with their conversions to
    the library's own types. */
module DataReflection {
  import L = WfcLibrary
  import opened Wrappers

  // ---------------------------------------------------------------------
  //  Enums.  Each value is declared equal to the library value of the same
  //  name, so `static_cast` between the two is the name-preserving map.
  // ---------------------------------------------------------------------

  /** `WFC_Directions3D`. */
  datatype WfcDirections3D = MinX | MaxX | MinY | MaxY | MinZ | MaxZ

  /** `static_cast<WFC::Tiled3D::Directions3D>(dir)`. */
  function DirectionToLib(d: WfcDirections3D): L.Directions3D {
    match d
    case MinX => L.MinX
    case MaxX => L.MaxX
    case MinY => L.MinY
    case MaxY => L.MaxY
    case MinZ => L.MinZ
    case MaxZ => L.MaxZ
  }

  /** `static_cast<WFC_Directions3D>(dir)`. */
  function DirectionFromLib(d: L.Directions3D): WfcDirections3D {
    match d
    case MinX => MinX
    case MaxX => MaxX
    case MinY => MinY
    case MaxY => MaxY
    case MinZ => MinZ
    case MaxZ => MaxZ
  }

  /** The numeric value of a `WFC_Directions3D`: by declaration, the library's. */
  function DirectionValue(d: WfcDirections3D): nat {
    L.DirectionValue(DirectionToLib(d))
  }

  /** The reflected direction enum and the library's enum are in one-to-one
      correspondence, with MinX numbered 0 (the `static_assert` after the enum)
      and no two directions sharing a number. */
  lemma DirectionNumbering(d: WfcDirections3D, e: L.Directions3D)
    ensures DirectionFromLib(DirectionToLib(d)) == d
    ensures DirectionToLib(DirectionFromLib(e)) == e
    ensures DirectionValue(MinX) == 0
    ensures forall d' :: DirectionValue(d) == DirectionValue(d') ==> d == d'
  {
  }

  /** `WFC_Transforms2D`. */
  datatype WfcTransforms2D =
    | None | Rotate90CW | Rotate180 | Rotate270CW
    | FlipX | FlipY | FlipDiag1 | FlipDiag2

  /** `static_cast<WFC::Transformations>(t)`. */
  function Transform2DToLib(t: WfcTransforms2D): L.Transformations {
    match t
    case None => L.Transformations.None
    case Rotate90CW => L.Rotate90CW
    case Rotate180 => L.Rotate180
    case Rotate270CW => L.Rotate270CW
    case FlipX => L.FlipX
    case FlipY => L.FlipY
    case FlipDiag1 => L.FlipDiag1
    case FlipDiag2 => L.FlipDiag2
  }

  /** `WFC_Rotations3D`. */
  datatype WfcRotations3D =
    | None
    | AxisX_90 | AxisX_180 | AxisX_270
    | AxisY_90 | AxisY_180 | AxisY_270
    | AxisZ_90 | AxisZ_180 | AxisZ_270
    | EdgesXa | EdgesXb | EdgesYa | EdgesYb | EdgesZa | EdgesZb
    | CornerAAA_120 | CornerAAA_240 | CornerABA_120 | CornerABA_240
    | CornerBAA_120 | CornerBAA_240 | CornerBBA_120 | CornerBBA_240

  /** `static_cast<WFC::Tiled3D::Rotations3D>(rot)`. */
  function RotationToLib(r: WfcRotations3D): L.Rotations3D {
    match r
    case None => L.Rotations3D.None
    case AxisX_90 => L.Rotations3D.AxisX_90
    case AxisX_180 => L.Rotations3D.AxisX_180
    case AxisX_270 => L.Rotations3D.AxisX_270
    case AxisY_90 => L.Rotations3D.AxisY_90
    case AxisY_180 => L.Rotations3D.AxisY_180
    case AxisY_270 => L.Rotations3D.AxisY_270
    case AxisZ_90 => L.Rotations3D.AxisZ_90
    case AxisZ_180 => L.Rotations3D.AxisZ_180
    case AxisZ_270 => L.Rotations3D.AxisZ_270
    case EdgesXa => L.Rotations3D.EdgesXa
    case EdgesXb => L.Rotations3D.EdgesXb
    case EdgesYa => L.Rotations3D.EdgesYa
    case EdgesYb => L.Rotations3D.EdgesYb
    case EdgesZa => L.Rotations3D.EdgesZa
    case EdgesZb => L.Rotations3D.EdgesZb
    case CornerAAA_120 => L.Rotations3D.CornerAAA_120
    case CornerAAA_240 => L.Rotations3D.CornerAAA_240
    case CornerABA_120 => L.Rotations3D.CornerABA_120
    case CornerABA_240 => L.Rotations3D.CornerABA_240
    case CornerBAA_120 => L.Rotations3D.CornerBAA_120
    case CornerBAA_240 => L.Rotations3D.CornerBAA_240
    case CornerBBA_120 => L.Rotations3D.CornerBBA_120
    case CornerBBA_240 => L.Rotations3D.CornerBBA_240
  }

  /** `static_cast<WFC_Rotations3D>(rot)`. */
  function RotationFromLib(r: L.Rotations3D): WfcRotations3D {
    match r
    case None => WfcRotations3D.None
    case AxisX_90 => WfcRotations3D.AxisX_90
    case AxisX_180 => WfcRotations3D.AxisX_180
    case AxisX_270 => WfcRotations3D.AxisX_270
    case AxisY_90 => WfcRotations3D.AxisY_90
    case AxisY_180 => WfcRotations3D.AxisY_180
    case AxisY_270 => WfcRotations3D.AxisY_270
    case AxisZ_90 => WfcRotations3D.AxisZ_90
    case AxisZ_180 => WfcRotations3D.AxisZ_180
    case AxisZ_270 => WfcRotations3D.AxisZ_270
    case EdgesXa => WfcRotations3D.EdgesXa
    case EdgesXb => WfcRotations3D.EdgesXb
    case EdgesYa => WfcRotations3D.EdgesYa
    case EdgesYb => WfcRotations3D.EdgesYb
    case EdgesZa => WfcRotations3D.EdgesZa
    case EdgesZb => WfcRotations3D.EdgesZb
    case CornerAAA_120 => WfcRotations3D.CornerAAA_120
    case CornerAAA_240 => WfcRotations3D.CornerAAA_240
    case CornerABA_120 => WfcRotations3D.CornerABA_120
    case CornerABA_240 => WfcRotations3D.CornerABA_240
    case CornerBAA_120 => WfcRotations3D.CornerBAA_120
    case CornerBAA_240 => WfcRotations3D.CornerBAA_240
    case CornerBBA_120 => WfcRotations3D.CornerBBA_120
    case CornerBBA_240 => WfcRotations3D.CornerBBA_240
  }

  /** The enumerator's name as declared. */
  function RotationName(r: WfcRotations3D): string {
    match r
    case None => "None"
    case AxisX_90 => "AxisX_90"
    case AxisX_180 => "AxisX_180"
    case AxisX_270 => "AxisX_270"
    case AxisY_90 => "AxisY_90"
    case AxisY_180 => "AxisY_180"
    case AxisY_270 => "AxisY_270"
    case AxisZ_90 => "AxisZ_90"
    case AxisZ_180 => "AxisZ_180"
    case AxisZ_270 => "AxisZ_270"
    case EdgesXa => "EdgesXa"
    case EdgesXb => "EdgesXb"
    case EdgesYa => "EdgesYa"
    case EdgesYb => "EdgesYb"
    case EdgesZa => "EdgesZa"
    case EdgesZb => "EdgesZb"
    case CornerAAA_120 => "CornerAAA_120"
    case CornerAAA_240 => "CornerAAA_240"
    case CornerABA_120 => "CornerABA_120"
    case CornerABA_240 => "CornerABA_240"
    case CornerBAA_120 => "CornerBAA_120"
    case CornerBAA_240 => "CornerBAA_240"
    case CornerBBA_120 => "CornerBBA_120"
    case CornerBBA_240 => "CornerBBA_240"
  }

  /** The enumerator whose name is `s`, if any. */
  function RotationFromName(s: string): Option<WfcRotations3D> {
    if s == "None" then Some(WfcRotations3D.None)
    else if s == "AxisX_90" then Some(WfcRotations3D.AxisX_90)
    else if s == "AxisX_180" then Some(WfcRotations3D.AxisX_180)
    else if s == "AxisX_270" then Some(WfcRotations3D.AxisX_270)
    else if s == "AxisY_90" then Some(WfcRotations3D.AxisY_90)
    else if s == "AxisY_180" then Some(WfcRotations3D.AxisY_180)
    else if s == "AxisY_270" then Some(WfcRotations3D.AxisY_270)
    else if s == "AxisZ_90" then Some(WfcRotations3D.AxisZ_90)
    else if s == "AxisZ_180" then Some(WfcRotations3D.AxisZ_180)
    else if s == "AxisZ_270" then Some(WfcRotations3D.AxisZ_270)
    else if s == "EdgesXa" then Some(WfcRotations3D.EdgesXa)
    else if s == "EdgesXb" then Some(WfcRotations3D.EdgesXb)
    else if s == "EdgesYa" then Some(WfcRotations3D.EdgesYa)
    else if s == "EdgesYb" then Some(WfcRotations3D.EdgesYb)
    else if s == "EdgesZa" then Some(WfcRotations3D.EdgesZa)
    else if s == "EdgesZb" then Some(WfcRotations3D.EdgesZb)
    else if s == "CornerAAA_120" then Some(WfcRotations3D.CornerAAA_120)
    else if s == "CornerAAA_240" then Some(WfcRotations3D.CornerAAA_240)
    else if s == "CornerABA_120" then Some(WfcRotations3D.CornerABA_120)
    else if s == "CornerABA_240" then Some(WfcRotations3D.CornerABA_240)
    else if s == "CornerBAA_120" then Some(WfcRotations3D.CornerBAA_120)
    else if s == "CornerBAA_240" then Some(WfcRotations3D.CornerBAA_240)
    else if s == "CornerBBA_120" then Some(WfcRotations3D.CornerBBA_120)
    else if s == "CornerBBA_240" then Some(WfcRotations3D.CornerBBA_240)
    else Option.None
  }
  /** Reflected rotations and library rotations correspond one to one. */
  lemma RotationCastRoundTrip(r: WfcRotations3D, lr: L.Rotations3D)
    ensures RotationFromLib(RotationToLib(r)) == r
    ensures RotationToLib(RotationFromLib(lr)) == lr
  {
  }

  // ---------------------------------------------------------------------
  //  FWFC_Face: the eight point IDs of one cube face.
  // ---------------------------------------------------------------------

  /** `FWFC_Face`.  Corners are named by (first axis, second axis) side, edges
      by (axis they run along, side). */
  datatype WfcFace = WfcFace(
    CornerAA: int, CornerAB: int, CornerBA: int, CornerBB: int,
    EdgeAA: int, EdgeAB: int, EdgeBA: int, EdgeBB: int)
  {
    /** `FWFC_Face::Unwrap`: the library's identifier record for this face. */
    function Unwrap(): (fi: L.FaceIdentifiers)
      ensures fi.Corners.At(L.AA) == CornerAA && fi.Corners.At(L.AB) == CornerAB
      ensures fi.Corners.At(L.BA) == CornerBA && fi.Corners.At(L.BB) == CornerBB
      ensures fi.Edges.At(L.AA) == EdgeAA && fi.Edges.At(L.AB) == EdgeAB
      ensures fi.Edges.At(L.BA) == EdgeBA && fi.Edges.At(L.BB) == EdgeBB
    {
      L.FaceIdentifiers(
        L.PerFacePoint(CornerAA, CornerAB, CornerBA, CornerBB),
        L.PerFacePoint(EdgeAA, EdgeAB, EdgeBA, EdgeBB))
    }

    /** `FWFC_Face::GetFields`, the tuple compared by `==`. */
    function GetFields(): (int, int, int, int, int, int, int, int) {
      (CornerAA, CornerAB, CornerBA, CornerBB, EdgeAA, EdgeAB, EdgeBA, EdgeBB)
    }

    /** `FWFC_Face::operator==`. */
    predicate Equals(f: WfcFace) {
      GetFields() == f.GetFields()
    }
  }

  /** The face whose `Unwrap` is `fi`: the inverse of `WfcFace.Unwrap`. */
  function WrapFace(fi: L.FaceIdentifiers): WfcFace {
    WfcFace(fi.Corners.At(L.AA), fi.Corners.At(L.AB), fi.Corners.At(L.BA), fi.Corners.At(L.BB),
            fi.Edges.At(L.AA), fi.Edges.At(L.AB), fi.Edges.At(L.BA), fi.Edges.At(L.BB))
  }

  /** `Unwrap` loses nothing and writes nothing beyond the eight fields: the face
      and its identifier record determine each other. */
  lemma FaceUnwrapRoundTrip(f: WfcFace, fi: L.FaceIdentifiers)
    ensures WrapFace(f.Unwrap()) == f
    ensures WrapFace(fi).Unwrap() == fi
    ensures forall g: WfcFace :: g.Unwrap() == f.Unwrap() ==> g == f
  {
    forall g: WfcFace | g.Unwrap() == f.Unwrap() ensures g == f {
      assert WrapFace(g.Unwrap()) == g;
    }
  }

  /** Two faces compare equal exactly when all eight fields are equal. */
  lemma FaceEqualsIsFieldwise(f: WfcFace, g: WfcFace)
    ensures f.Equals(g) <==> f == g
  {
  }

  /** `FWFC_Cube`: the faces of all six sides of a tile. */
  datatype WfcCube = WfcCube(
    MinX: WfcFace, MaxX: WfcFace,
    MinY: WfcFace, MaxY: WfcFace,
    MinZ: WfcFace, MaxZ: WfcFace)
  {
    /** `FWFC_Cube::operator==`. */
    predicate Equals(c: WfcCube) {
      MinX.Equals(c.MinX) && MinY.Equals(c.MinY) && MinZ.Equals(c.MinZ) &&
      MaxX.Equals(c.MaxX) && MaxY.Equals(c.MaxY) && MaxZ.Equals(c.MaxZ)
    }
  }

  /** Two cubes compare equal exactly when their six faces are pairwise equal,
      i.e. when they are the same value. */
  lemma CubeEqualsIsFacewise(c: WfcCube, d: WfcCube)
    ensures c.Equals(d) <==> c == d
  {
  }

  // ---------------------------------------------------------------------
  //  FWFC_Transform3D
  // ---------------------------------------------------------------------

  /** `FWFC_Transform3D`: a cube rotation, optionally preceded by an inversion. */
  datatype WfcTransform3D = WfcTransform3D(Rot: WfcRotations3D, Invert: bool)
  {
    /** `FWFC_Transform3D::Unwrap`: the library's transform. */
    function Unwrap(): (t: L.Transform3D)
      ensures t.Invert == Invert
      ensures t.Rot == RotationToLib(Rot) && RotationFromLib(t.Rot) == Rot
    {
      L.Transform3D(Invert, RotationToLib(Rot))
    }

    /** `FWFC_Transform3D::operator==`. */
    predicate Equals(t: WfcTransform3D) {
      Rot == t.Rot && Invert == t.Invert
    }
  }

  /** The default-constructed `FWFC_Transform3D`. */
  const DefaultTransform: WfcTransform3D := WfcTransform3D(WfcRotations3D.None, false)

  /** The one-argument constructor `FWFC_Transform3D(rot)`. */
  function TransformOfRotation(rot: WfcRotations3D): (t: WfcTransform3D)
    ensures t.Rot == rot && !t.Invert
    ensures rot == WfcRotations3D.None ==> t == DefaultTransform
  {
    WfcTransform3D(rot, false)
  }

  /** The converting constructor `FWFC_Transform3D(const Transform3D&)`. */
  function TransformFromLib(tr: L.Transform3D): (t: WfcTransform3D)
    ensures t.Invert == tr.Invert
    ensures t.Rot == RotationFromLib(tr.Rot) && RotationToLib(t.Rot) == tr.Rot
  {
    WfcTransform3D(RotationFromLib(tr.Rot), tr.Invert)
  }

  /** Converting to the library and back gives the same transform, in both
      directions; so `Unwrap` is injective. */
  lemma TransformRoundTrip(t: WfcTransform3D, tr: L.Transform3D)
    ensures TransformFromLib(t.Unwrap()) == t
    ensures TransformFromLib(tr).Unwrap() == tr
    ensures forall u: WfcTransform3D :: u.Unwrap() == t.Unwrap() ==> u == t
  {
    RotationCastRoundTrip(t.Rot, tr.Rot);
    forall u: WfcTransform3D | u.Unwrap() == t.Unwrap() ensures u == t {
      RotationCastRoundTrip(u.Rot, tr.Rot);
    }
  }

  /** Equality is the pair (Rot, Invert); the default value is (None, false). */
  lemma TransformEqualsIsPairwise(t: WfcTransform3D, u: WfcTransform3D)
    ensures t.Equals(u) <==> (t.Rot, t.Invert) == (u.Rot, u.Invert)
    ensures t.Equals(u) <==> t == u
    ensures DefaultTransform.Rot == WfcRotations3D.None && !DefaultTransform.Invert
  {
  }

  // ---------------------------------------------------------------------
  //  FWFC_Transform3D::ToString
  // ---------------------------------------------------------------------

  /** `UEnum::GetValueAsString(rot)`: the enumerator qualified by its enum's name. */
  function EnumValueString(r: WfcRotations3D): string {
    "WFC_Rotations3D::" + RotationName(r)
  }

  /** `FString::RightChop(n)`: the string without its first `n` characters. */
  function RightChop(s: string, n: nat): (r: string)
    ensures n <= |s| ==> r == s[n..]
    ensures n > |s| ==> r == ""
  {
    if n <= |s| then s[n..] else ""
  }

  function InvertPrefix(t: WfcTransform3D): string {
    if t.Invert then "Invert->" else ""
  }

  /** `FWFC_Transform3D::ToString` as written: it chops 13 characters, the
      length of "Rotations3D::", from a string that starts with the 17
      characters "WFC_Rotations3D::". */
  function ToStringAsWritten(t: WfcTransform3D): (s: string)
    ensures s == InvertPrefix(t) + "Rot3D::" + RotationName(t.Rot)
  {
    assert EnumValueString(t.Rot)[13..] == "3D::" + RotationName(t.Rot);
    InvertPrefix(t) + "Rot" + RightChop(EnumValueString(t.Rot), 13)
  }

  /** What the chop leaves: "3D::" stays between "Rot" and the enumerator's
      name, so the default transform prints as "Rot3D::None" rather than
      "RotNone", and no transform prints as the intended text. */
  lemma ToStringAsWrittenKeepsQualifier(t: WfcTransform3D)
    ensures ToStringAsWritten(DefaultTransform) == "Rot3D::None"
    ensures ToStringAsWritten(DefaultTransform) != "RotNone"
    ensures ToStringAsWritten(t) != ToString(t)
  {
    assert |ToStringAsWritten(t)| == |ToString(t)| + 4;
  }

  /** `ToString` with the whole qualifier "WFC_Rotations3D::" removed, as the
      comment beside the chop intends: "Rot" followed by the enumerator's name. */
  function ToString(t: WfcTransform3D): (s: string)
    ensures s == InvertPrefix(t) + "Rot" + RotationName(t.Rot)
  {
    var chopped := RightChop(EnumValueString(t.Rot), 17);
    assert chopped == RotationName(t.Rot);
    InvertPrefix(t) + "Rot" + chopped
  }

  /** Reads back a string made by `ToString`. */
  function ParseTransform(s: string): Option<WfcTransform3D> {
    var invert := |s| >= 8 && s[..8] == "Invert->";
    var rest := if invert then s[8..] else s;
    if |rest| >= 3 && rest[..3] == "Rot" then
      match RotationFromName(rest[3..])
      case Some(r) => Some(WfcTransform3D(r, invert))
      case None => Option.None
    else Option.None
  }

  /** Every enumerator name reads back as its enumerator. */
  lemma {:induction false} RotationNameRoundTrip(r: WfcRotations3D)
    ensures RotationFromName(RotationName(r)) == Some(r)
  {
  }

  /** The corrected `ToString` reads back to the transform it printed, so no two
      transforms print alike; and its text starts with "Invert->" exactly when
      the transform inverts. */
  lemma ToStringRoundTrip(t: WfcTransform3D)
    ensures ParseTransform(ToString(t)) == Some(t)
    ensures forall u: WfcTransform3D :: ToString(u) == ToString(t) ==> u == t
    ensures var s := ToString(t); (|s| >= 8 && s[..8] == "Invert->") <==> t.Invert
  {
    forall u: WfcTransform3D ensures ParseTransform(ToString(u)) == Some(u) {
      ParseOfToString(u);
    }
  }

  lemma ParseOfToString(t: WfcTransform3D)
    ensures ParseTransform(ToString(t)) == Some(t)
    ensures var s := ToString(t); (|s| >= 8 && s[..8] == "Invert->") <==> t.Invert
  {
    RotationNameRoundTrip(t.Rot);
    ParsePrinted(t.Invert, RotationName(t.Rot));
  }

  /** Parsing "[Invert->]Rot<name>" reads the inversion from the prefix and the
      rotation from the name. */
  lemma ParsePrinted(invert: bool, name: string)
    ensures var s := (if invert then "Invert->" else "") + "Rot" + name;
      && ((|s| >= 8 && s[..8] == "Invert->") <==> invert)
      && ParseTransform(s) == match RotationFromName(name)
                              case Some(r) => Some(WfcTransform3D(r, invert))
                              case None => Option.None
  {
    var s := (if invert then "Invert->" else "") + "Rot" + name;
    if invert {
      assert s[..8] == "Invert->";
      assert s[8..] == "Rot" + name;
      assert s[8..][..3] == "Rot";
      assert s[8..][3..] == name;
    } else {
      assert s[0] == 'R';
      assert s[..3] == "Rot";
      assert s[3..] == name;
    }
  }

  /** The printed form of the code as written also starts with "Invert->"
      exactly when the transform inverts. */
  lemma ToStringAsWrittenInvertPrefix(t: WfcTransform3D)
    ensures var s := ToStringAsWritten(t); (|s| >= 8 && s[..8] == "Invert->") <==> t.Invert
  {
    ToStringAsWrittenKeepsQualifier(t);
    var s := ToStringAsWritten(t);
    if !t.Invert {
      assert s[0] == 'R';
    } else {
      assert s[..8] == "Invert->";
    }
  }

  // ---------------------------------------------------------------------
  //  FWfcImplicitTransformSet
  // ---------------------------------------------------------------------

  /** `FWfcImplicitTransformSet`. */
  datatype WfcImplicitTransformSet = WfcImplicitTransformSet(
    InitialPermutations: set<WfcTransform3D>,
    AllowInversions: bool,
    AllowAllRotations: bool,
    AllowAxisRotations: bool,
    AllowCornerRotations: bool,
    AllowEdgeRotations: bool,
    AllowAxisXRotations: bool,
    AllowAxisYRotations: bool,
    AllowAxisZRotations: bool,
    AllowEdgeXRotations: bool,
    AllowEdgeYRotations: bool,
    AllowEdgeZRotations: bool,
    SpecificAllowedTransforms: set<WfcTransform3D>)

  /** The default value: only the identity as initial permutation, no flag set. */
  const DefaultImplicitTransformSet: WfcImplicitTransformSet :=
    WfcImplicitTransformSet({DefaultTransform}, false, false, false, false, false,
                            false, false, false, false, false, false, {})

  /** The library transforms of a set of reflected transforms. */
  function UnwrapAll(s: set<WfcTransform3D>): set<L.Transform3D> {
    set t | t in s :: t.Unwrap()
  }

  /** `Unwrap` of a set keeps membership and size: no two transforms merge. */
  lemma {:induction false} UnwrapAllExact(s: set<WfcTransform3D>)
    ensures forall t: WfcTransform3D :: t in s <==> t.Unwrap() in UnwrapAll(s)
    ensures |UnwrapAll(s)| == |s|
    decreases s
  {
    forall t: WfcTransform3D | t.Unwrap() in UnwrapAll(s) ensures t in s {
      var u :| u in s && u.Unwrap() == t.Unwrap();
      TransformRoundTrip(u, t.Unwrap());
    }
    if s != {} {
      var x :| x in s;
      UnwrapAllExact(s - {x});
      assert UnwrapAll(s) == UnwrapAll(s - {x}) + {x.Unwrap()};
      assert x !in s - {x};
    }
  }

  /** The value `FWfcImplicitTransformSet::Unwrap` returns, starting from the
      library's default-constructed set `blank`. */
  function ImplicitUnwrapped(s: WfcImplicitTransformSet, blank: L.ImplicitTransformSet)
    : L.ImplicitTransformSet
  {
    L.ImplicitTransformSet(
      UnwrapAll(s.InitialPermutations),
      s.AllowInversions, s.AllowAllRotations,
      s.AllowAxisRotations, s.AllowCornerRotations, s.AllowEdgeRotations,
      s.AllowAxisXRotations, s.AllowAxisYRotations, s.AllowAxisZRotations,
      s.AllowEdgeXRotations, s.AllowEdgeYRotations, s.AllowEdgeZRotations,
      blank.SpecificAllowedTransforms + UnwrapAll(s.SpecificAllowedTransforms))
  }

  /** One of the two loops of `FWfcImplicitTransformSet::Unwrap`: adds the
      library form of every transform of `source` to `acc`. */
  method AddUnwrapped(acc: set<L.Transform3D>, source: set<WfcTransform3D>)
    returns (r: set<L.Transform3D>)
    ensures r == acc + UnwrapAll(source)
  {
    r := acc;
    var rest := source;
    while rest != {}
      invariant rest <= source
      invariant r == acc + UnwrapAll(source - rest)
      decreases rest
    {
      var tr :| tr in rest;
      assert UnwrapAll(source - (rest - {tr})) == UnwrapAll(source - rest) + {tr.Unwrap()};
      r := r + {tr.Unwrap()};
      rest := rest - {tr};
    }
    assert source - rest == source;
  }

  /** `FWfcImplicitTransformSet::Unwrap`: clears the initial transforms of a
      fresh library set, adds each initial permutation, copies the eleven flags
      and adds each specific transform. */
  method UnwrapImplicit(s: WfcImplicitTransformSet, blank: L.ImplicitTransformSet)
    returns (r: L.ImplicitTransformSet)
    ensures r == ImplicitUnwrapped(s, blank)
  {
    r := blank;
    var initial := AddUnwrapped({}, s.InitialPermutations);
    r := r.(InitialTransforms := initial);
    r := r.(AllowInversion := s.AllowInversions,
            AllowAllRotations := s.AllowAllRotations,
            AllowAxisRots := s.AllowAxisRotations,
            AllowCornerRots := s.AllowCornerRotations,
            AllowEdgeRots := s.AllowEdgeRotations,
            AllowAxisXRots := s.AllowAxisXRotations,
            AllowAxisYRots := s.AllowAxisYRotations,
            AllowAxisZRots := s.AllowAxisZRotations,
            AllowEdgeXRots := s.AllowEdgeXRotations,
            AllowEdgeYRots := s.AllowEdgeYRotations,
            AllowEdgeZRots := s.AllowEdgeZRotations);
    var specific := AddUnwrapped(r.SpecificAllowedTransforms, s.SpecificAllowedTransforms);
    r := r.(SpecificAllowedTransforms := specific);
  }

  /** What the unwrapped set holds: all eleven flags as given, exactly the
      unwrapped initial permutations (whatever the blank set started with), and
      exactly the blank set's specific transforms plus the unwrapped specific
      ones. */
  lemma ImplicitUnwrapContents(s: WfcImplicitTransformSet, blank: L.ImplicitTransformSet)
    ensures var r := ImplicitUnwrapped(s, blank);
      && r.AllowInversion == s.AllowInversions
      && r.AllowAllRotations == s.AllowAllRotations
      && r.AllowAxisRots == s.AllowAxisRotations
      && r.AllowCornerRots == s.AllowCornerRotations
      && r.AllowEdgeRots == s.AllowEdgeRotations
      && r.AllowAxisXRots == s.AllowAxisXRotations
      && r.AllowAxisYRots == s.AllowAxisYRotations
      && r.AllowAxisZRots == s.AllowAxisZRotations
      && r.AllowEdgeXRots == s.AllowEdgeXRotations
      && r.AllowEdgeYRots == s.AllowEdgeYRotations
      && r.AllowEdgeZRots == s.AllowEdgeZRotations
      && (forall t: WfcTransform3D :: t.Unwrap() in r.InitialTransforms <==> t in s.InitialPermutations)
      && |r.InitialTransforms| == |s.InitialPermutations|
      && (forall t: WfcTransform3D :: t in s.SpecificAllowedTransforms ==> t.Unwrap() in r.SpecificAllowedTransforms)
      && blank.SpecificAllowedTransforms <= r.SpecificAllowedTransforms
      && (forall u :: u in r.SpecificAllowedTransforms <==>
            u in blank.SpecificAllowedTransforms
            || exists t :: t in s.SpecificAllowedTransforms && t.Unwrap() == u)
  {
    UnwrapAllExact(s.InitialPermutations);
    UnwrapAllExact(s.SpecificAllowedTransforms);
  }

  /** `FWfcImplicitTransformSet::operator==`: the two sets allow the same
      transforms once the library expands them (`GetExplicit`). */
  predicate ImplicitSetEquals(s1: WfcImplicitTransformSet, s2: WfcImplicitTransformSet, geo: L.Geometry) {
    geo.getExplicit(ImplicitUnwrapped(s1, geo.blankImplicitSet))
      == geo.getExplicit(ImplicitUnwrapped(s2, geo.blankImplicitSet))
  }

  /** Comparing by explicit form is an equivalence, and it identifies two sets
      whose fields agree and whose transforms unwrap to the same library sets. */
  lemma ImplicitSetEqualsIsEquivalence(s1: WfcImplicitTransformSet, s2: WfcImplicitTransformSet,
                                       s3: WfcImplicitTransformSet, geo: L.Geometry)
    ensures ImplicitSetEquals(s1, s1, geo)
    ensures ImplicitSetEquals(s1, s2, geo) ==> ImplicitSetEquals(s2, s1, geo)
    ensures ImplicitSetEquals(s1, s2, geo) && ImplicitSetEquals(s2, s3, geo) ==> ImplicitSetEquals(s1, s3, geo)
    ensures ImplicitUnwrapped(s1, geo.blankImplicitSet) == ImplicitUnwrapped(s2, geo.blankImplicitSet)
            ==> ImplicitSetEquals(s1, s2, geo)
  {
  }
}
