/** The types of the WFC++ library that the plugin hands values to and receives
    values from.  The library's own code is not part of this model: its values are
    plain datatypes here, and the few library functions the plugin calls are
    carried by `Geometry`, a record of total functions that callers supply. */
module WfcLibrary {

  /** `WFC::Tiled3D::Directions3D`: the six faces of a cube, in the library's order. */
  datatype Directions3D = MinX | MaxX | MinY | MaxY | MinZ | MaxZ

  /** The numeric value of a library direction (MinX is 0). */
  function DirectionValue(d: Directions3D): (v: nat)
    ensures v < 6
    ensures (v == 0) == (d == MinX)
  {
    match d
    case MinX => 0
    case MaxX => 1
    case MinY => 2
    case MaxY => 3
    case MinZ => 4
    case MaxZ => 5
  }

  /** `WFC::Tiled3D::FacePoints`: the four corners (or the four edges) of a face. */
  datatype FacePoints = AA | AB | BA | BB

  /** `static_cast<FacePoints>(i)` for the loop index `i` in [0, N_FACE_POINTS). */
  function FacePointAt(i: nat): FacePoints
    requires i < N_FACE_POINTS
  {
    if i == 0 then AA else if i == 1 then AB else if i == 2 then BA else BB
  }

  const N_FACE_POINTS: nat := 4

  /** Every face point is reached by some loop index. */
  lemma FacePointAtCovers(p: FacePoints)
    ensures exists i :: 0 <= i < N_FACE_POINTS && FacePointAt(i) == p
  {
    match p
    case AA => assert FacePointAt(0) == AA;
    case AB => assert FacePointAt(1) == AB;
    case BA => assert FacePointAt(2) == BA;
    case BB => assert FacePointAt(3) == BB;
  }

  /** `PerFacePoint<PointID>`: one point ID for each of the four face points. */
  datatype PerFacePoint = PerFacePoint(aa: int, ab: int, ba: int, bb: int) {

    function At(p: FacePoints): int {
      match p
      case AA => aa
      case AB => ab
      case BA => ba
      case BB => bb
    }

    /** Writing `v` into the slot of `p` (`output[p] = v`). */
    function With(p: FacePoints, v: int): (r: PerFacePoint)
      ensures r.At(p) == v
      ensures forall q :: q != p ==> r.At(q) == At(q)
    {
      match p
      case AA => this.(aa := v)
      case AB => this.(ab := v)
      case BA => this.(ba := v)
      case BB => this.(bb := v)
    }
  }

  /** `WFC::Tiled3D::FaceIdentifiers`: point IDs for a face's corners and edges. */
  datatype FaceIdentifiers = FaceIdentifiers(Corners: PerFacePoint, Edges: PerFacePoint)

  /** `WFC::Transformations`: the eight symmetries of a square face. */
  datatype Transformations =
    | None | Rotate90CW | Rotate180 | Rotate270CW
    | FlipX | FlipY | FlipDiag1 | FlipDiag2

  /** `WFC::Tiled3D::Rotations3D`: the 24 rotations of a cube. */
  datatype Rotations3D =
    | None
    | AxisX_90 | AxisX_180 | AxisX_270
    | AxisY_90 | AxisY_180 | AxisY_270
    | AxisZ_90 | AxisZ_180 | AxisZ_270
    | EdgesXa | EdgesXb | EdgesYa | EdgesYb | EdgesZa | EdgesZb
    | CornerAAA_120 | CornerAAA_240 | CornerABA_120 | CornerABA_240
    | CornerBAA_120 | CornerBAA_240 | CornerBBA_120 | CornerBBA_240

  /** `WFC::Tiled3D::Transform3D`: a rotation, optionally preceded by an inversion. */
  datatype Transform3D = Transform3D(Invert: bool, Rot: Rotations3D)

  /** `WFC::Tiled3D::TransformSet`, a bit set over the 48 transforms. */
  type TransformSet = set<Transform3D>

  /** `WFC::Tiled3D::ImplicitTransformSet`. */
  datatype ImplicitTransformSet = ImplicitTransformSet(
    InitialTransforms: set<Transform3D>,
    AllowInversion: bool,
    AllowAllRotations: bool,
    AllowAxisRots: bool,
    AllowCornerRots: bool,
    AllowEdgeRots: bool,
    AllowAxisXRots: bool,
    AllowAxisYRots: bool,
    AllowAxisZRots: bool,
    AllowEdgeXRots: bool,
    AllowEdgeYRots: bool,
    AllowEdgeZRots: bool,
    SpecificAllowedTransforms: TransformSet)

  /** `WFC::Tiled3D::FaceVector` (the library's 2D vector of a face point). */
  datatype FaceVector = FaceVector(x: int, y: int)

  /** The library functions the plugin calls, as uninterpreted total functions.
      `blankImplicitSet` is the value of a default-constructed
      `ImplicitTransformSet`; nothing is assumed about any of them beyond their
      types, unless a lemma says so in its `requires`. */
  datatype Geometry = Geometry(
    blankImplicitSet: ImplicitTransformSet,
    getExplicit: ImplicitTransformSet -> TransformSet,
    makeCornerFaceVector: FacePoints -> FaceVector,
    makeCornerFacePoint: FaceVector -> FacePoints,
    makeEdgeFaceVector: FacePoints -> FaceVector,
    makeEdgeFacePoint: FaceVector -> FacePoints,
    transformVector: (FaceVector, Transformations) -> FaceVector)
}
