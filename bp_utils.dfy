/** The Blueprint helper library `UWfcUtils` (WfcBpUtils.h, WfcBpUtils.cpp):
    equality operators for the reflected records, face lookup on a tile, the
    face-ID constants and the rotator that turns +X towards a cube face. */
module BpUtils {
  import L = WfcLibrary
  import opened DataReflection
  import T = Tiles
  import FP = FacePrototypes

  /** `FaceEquals`: the struct's `operator==`, which is value equality. */
  function FaceEquals(a: WfcFace, b: WfcFace): (r: bool)
    ensures r <==> a == b
  {
    FaceEqualsIsFieldwise(a, b);
    a.Equals(b)
  }

  /** `FaceNotEquals`. */
  function FaceNotEquals(a: WfcFace, b: WfcFace): (r: bool)
    ensures r == !FaceEquals(a, b)
    ensures r <==> a != b
  {
    !FaceEquals(a, b)
  }

  /** `CubeEquals`: the struct's `operator==`, which is value equality. */
  function CubeEquals(a: WfcCube, b: WfcCube): (r: bool)
    ensures r <==> a == b
  {
    CubeEqualsIsFacewise(a, b);
    a.Equals(b)
  }

  /** `CubeNotEquals`. */
  function CubeNotEquals(a: WfcCube, b: WfcCube): (r: bool)
    ensures r == !CubeEquals(a, b)
    ensures r <==> a != b
  {
    !CubeEquals(a, b)
  }

  /** `TransfEquals`: the struct's `operator==`, which is value equality. */
  function TransfEquals(a: WfcTransform3D, b: WfcTransform3D): (r: bool)
    ensures r <==> a == b
    ensures r <==> a.Unwrap() == b.Unwrap()
  {
    TransformEqualsIsPairwise(a, b);
    TransformRoundTrip(a, b.Unwrap());
    TransformRoundTrip(b, a.Unwrap());
    a.Equals(b)
  }

  /** `TransfNotEquals`. */
  function TransfNotEquals(a: WfcTransform3D, b: WfcTransform3D): (r: bool)
    ensures r == !TransfEquals(a, b)
    ensures r <==> a != b
  {
    !TransfEquals(a, b)
  }

  /** `GetFace(tile, dir)`: the tile's face in the library direction with the
      same numbering, which is the field named like `dir`. */
  function GetFace(tile: T.Tile, dir: WfcDirections3D): (f: T.TileFace)
    ensures dir == MinX ==> f == tile.MinX
    ensures dir == MaxX ==> f == tile.MaxX
    ensures dir == MinY ==> f == tile.MinY
    ensures dir == MaxY ==> f == tile.MaxY
    ensures dir == MinZ ==> f == tile.MinZ
    ensures dir == MaxZ ==> f == tile.MaxZ
  {
    T.GetFace(tile, DirectionToLib(dir))
  }

  /** `FaceIDInvalid`: the null face-prototype ID. */
  function FaceIDInvalid(): (id: int)
    ensures id == FP.INVALID_FACE_ID && id == 0
  {
    FP.INVALID_FACE_ID
  }

  /** `FaceIDFirstValid`: the first valid face-prototype ID, above the null one. */
  function FaceIDFirstValid(): (id: int)
    ensures id == FP.FIRST_VALID_FACE_ID && id == 1
    ensures FaceIDInvalid() < id
  {
    FP.FIRST_VALID_FACE_ID
  }

  /** `FRotator`, in degrees. */
  datatype Rotator = Rotator(Pitch: int, Yaw: int, Roll: int)

  /** `WfcToFRotator`: the engine rotator the table assigns to each face.  No
      entry rolls, the yaw lies in [0, 360), and only the two Z faces pitch,
      by a quarter turn. */
  function WfcToFRotator(face: WfcDirections3D): (r: Rotator)
    ensures r.Roll == 0 && 0 <= r.Yaw < 360
    ensures r.Pitch != 0 <==> face == MinZ || face == MaxZ
    ensures r.Pitch == -90 || r.Pitch == 0 || r.Pitch == 90
  {
    match face
    case MinX => Rotator(0, 180, 0)
    case MaxX => Rotator(0, 0, 0)
    case MinY => Rotator(0, 90, 0)
    case MaxY => Rotator(0, 270, 0)
    case MinZ => Rotator(-90, 0, 0)
    case MaxZ => Rotator(90, 0, 0)
  }

  /** The six faces get six different rotations, none of them rolls; +X needs
      none; the X and Y faces only turn about the vertical, opposite faces half
      a turn apart; the Z faces only pitch, by a quarter turn down or up. */
  lemma WfcToFRotatorTable()
    ensures forall d, e :: d != e ==> WfcToFRotator(d) != WfcToFRotator(e)
    ensures forall d :: WfcToFRotator(d).Roll == 0
    ensures WfcToFRotator(MaxX) == Rotator(0, 0, 0)
    ensures WfcToFRotator(MinX).Yaw == 180 && WfcToFRotator(MinX).Pitch == 0
    ensures WfcToFRotator(MinY).Pitch == 0 && WfcToFRotator(MaxY).Pitch == 0
    ensures WfcToFRotator(MaxY).Yaw - WfcToFRotator(MinY).Yaw == 180
    ensures WfcToFRotator(MinZ) == Rotator(-90, 0, 0) && WfcToFRotator(MaxZ) == Rotator(90, 0, 0)
  {
  }
}
