/** A tile of the catalog (WfcTile.h, WfcTile.cpp): six faces, each naming a
    face prototype and an orientation, a weight, optional game data, and the
    transforms under which the tile may be placed. */
module Tiles {
  import L = WfcLibrary
  import opened DataReflection

  // ---------------------------------------------------------------------
  //  Game data (WfcTileData.h), reduced to what the tile layer looks at.
  // ---------------------------------------------------------------------

  /** Which kind of `UWfcTileGameData` an object is: `StaticMeshData` stands
      for any object that `IsA<UWfcTileGameData_StaticMesh>`, subclasses
      included. */
  datatype GameDataKind = StaticMeshData | ActorData | OtherData

  /** A game-data object: its identity, class and editor description. */
  datatype GameData = GameData(id: nat, kind: GameDataKind, editorDescription: string)

  /** A `UWfcTileGameData*`: null, or an object that may be pending destruction. */
  datatype DataPtr = Null | Ptr(target: GameData, pendingKill: bool)

  /** Unreal's `IsValid(ptr)`: non-null and not pending destruction. */
  predicate IsValidData(p: DataPtr) {
    p.Ptr? && !p.pendingKill
  }

  // ---------------------------------------------------------------------
  //  FWfcTileFace
  // ---------------------------------------------------------------------

  /** `FWfcTileFace`: the prototype a face takes after, and how its points map
      onto the prototype's. */
  datatype TileFace = TileFace(PrototypeID: int, PrototypeOrientation: WfcTransforms2D)
  {
    /** `FWfcTileFace::operator==`. */
    predicate Equals(f2: TileFace) {
      PrototypeID == f2.PrototypeID && PrototypeOrientation == f2.PrototypeOrientation
    }
  }

  /** Two tile faces compare equal exactly when they name the same prototype
      with the same orientation. */
  lemma TileFaceEqualsIsPairwise(f: TileFace, g: TileFace)
    ensures f.Equals(g) <==> f == g
  {
  }

  /** `GetPrototypeCorner`: face point -> face vector -> oriented vector -> point.
      A corner whose vector the face's orientation leaves in place, and which
      the library reads back, is its own prototype corner. */
  function GetPrototypeCorner(face: TileFace, thisCorner: L.FacePoints, geo: L.Geometry): (p: L.FacePoints)
    ensures var v := geo.makeCornerFaceVector(thisCorner);
            geo.transformVector(v, Transform2DToLib(face.PrototypeOrientation)) == v
            && geo.makeCornerFacePoint(v) == thisCorner
            ==> p == thisCorner
  {
    var dir := geo.makeCornerFaceVector(thisCorner);
    var turned := geo.transformVector(dir, Transform2DToLib(face.PrototypeOrientation));
    geo.makeCornerFacePoint(turned)
  }

  /** `GetPrototypeEdge`: the same composition for edges. */
  function GetPrototypeEdge(face: TileFace, thisEdge: L.FacePoints, geo: L.Geometry): (p: L.FacePoints)
    ensures var v := geo.makeEdgeFaceVector(thisEdge);
            geo.transformVector(v, Transform2DToLib(face.PrototypeOrientation)) == v
            && geo.makeEdgeFacePoint(v) == thisEdge
            ==> p == thisEdge
  {
    var dir := geo.makeEdgeFaceVector(thisEdge);
    var turned := geo.transformVector(dir, Transform2DToLib(face.PrototypeOrientation));
    geo.makeEdgeFacePoint(turned)
  }

  /** What the composition needs of the library for one kind of face point
      (corners, or edges): reading back a point's vector gives the point, and
      each 2D transform sends the four point vectors to point vectors, distinct
      ones to distinct ones. */
  ghost predicate PointMapsCoherent(toVector: L.FacePoints -> L.FaceVector, toPoint: L.FaceVector -> L.FacePoints,
                                    transform: (L.FaceVector, L.Transformations) -> L.FaceVector)
  {
    && (forall q :: toPoint(toVector(q)) == q)
    && (forall q, t :: toVector(toPoint(transform(toVector(q), t))) == transform(toVector(q), t))
    && (forall p, q, t :: p != q ==> transform(toVector(p), t) != transform(toVector(q), t))
  }

  /** Under a coherent library, distinct corners of a tile face land on
      distinct corners of the prototype, and likewise for edges; a map of the
      four face points to themselves that is injective is a permutation. */
  lemma PrototypePointMapsArePermutations(face: TileFace, geo: L.Geometry)
    requires PointMapsCoherent(geo.makeCornerFaceVector, geo.makeCornerFacePoint, geo.transformVector)
    requires PointMapsCoherent(geo.makeEdgeFaceVector, geo.makeEdgeFacePoint, geo.transformVector)
    ensures forall p, q :: p != q ==> GetPrototypeCorner(face, p, geo) != GetPrototypeCorner(face, q, geo)
    ensures forall p, q :: p != q ==> GetPrototypeEdge(face, p, geo) != GetPrototypeEdge(face, q, geo)
  {
    var t := Transform2DToLib(face.PrototypeOrientation);
    InjectiveOnPoints(geo.makeCornerFaceVector, geo.makeCornerFacePoint, geo.transformVector, t);
    InjectiveOnPoints(geo.makeEdgeFaceVector, geo.makeEdgeFacePoint, geo.transformVector, t);
  }

  /** One kind of face point, one transform: point -> vector -> transformed
      vector -> point sends distinct points to distinct points, because the
      transformed vectors are distinct and each reads back to itself. */
  lemma InjectiveOnPoints(toVector: L.FacePoints -> L.FaceVector, toPoint: L.FaceVector -> L.FacePoints,
                          transform: (L.FaceVector, L.Transformations) -> L.FaceVector, t: L.Transformations)
    requires PointMapsCoherent(toVector, toPoint, transform)
    ensures forall p, q :: p != q ==> toPoint(transform(toVector(p), t)) != toPoint(transform(toVector(q), t))
  {
    forall p, q | p != q ensures toPoint(transform(toVector(p), t)) != toPoint(transform(toVector(q), t)) {
      var vp, vq := transform(toVector(p), t), transform(toVector(q), t);
      assert vp != vq;
      assert toVector(toPoint(vp)) == vp && toVector(toPoint(vq)) == vq;
    }
  }

  /** The four face points at the corners of the unit square. */
  function SquareVector(p: L.FacePoints): L.FaceVector {
    match p
    case AA => L.FaceVector(0, 0)
    case AB => L.FaceVector(0, 1)
    case BA => L.FaceVector(1, 0)
    case BB => L.FaceVector(1, 1)
  }

  /** The face point of the unit-square quadrant a vector lies in. */
  function SquarePoint(v: L.FaceVector): L.FacePoints {
    if v.x <= 0 then (if v.y <= 0 then L.AA else L.AB) else (if v.y <= 0 then L.BA else L.BB)
  }

  /** The eight symmetries of the unit square, acting on the plane. */
  function SquareTransform(v: L.FaceVector, t: L.Transformations): L.FaceVector {
    match t
    case None => v
    case Rotate90CW => L.FaceVector(v.y, 1 - v.x)
    case Rotate180 => L.FaceVector(1 - v.x, 1 - v.y)
    case Rotate270CW => L.FaceVector(1 - v.y, v.x)
    case FlipX => L.FaceVector(1 - v.x, v.y)
    case FlipY => L.FaceVector(v.x, 1 - v.y)
    case FlipDiag1 => L.FaceVector(v.y, v.x)
    case FlipDiag2 => L.FaceVector(1 - v.y, 1 - v.x)
  }

  /** A geometry whose corners and edges both sit on the unit square. */
  function UnitSquareGeometry(blank: L.ImplicitTransformSet, getExplicit: L.ImplicitTransformSet -> L.TransformSet): L.Geometry {
    L.Geometry(blank, getExplicit, SquareVector, SquarePoint, SquareVector, SquarePoint, SquareTransform)
  }

  /** A corner of the unit square stays a corner under every symmetry. */
  lemma SquareReadBack(q: L.FacePoints, t: L.Transformations)
    ensures SquareVector(SquarePoint(SquareTransform(SquareVector(q), t))) == SquareTransform(SquareVector(q), t)
  {
    match q
    case AA =>
    case AB =>
    case BA =>
    case BB =>
  }

  /** Every symmetry of the square is injective on the plane. */
  lemma SquareTransformInjective(v: L.FaceVector, w: L.FaceVector, t: L.Transformations)
    requires v != w
    ensures SquareTransform(v, t) != SquareTransform(w, t)
  {
  }

  /** The coherence conditions can be met: the unit-square geometry meets them. */
  lemma UnitSquareGeometryIsCoherent(blank: L.ImplicitTransformSet, getExplicit: L.ImplicitTransformSet -> L.TransformSet)
    ensures var geo := UnitSquareGeometry(blank, getExplicit);
      && PointMapsCoherent(geo.makeCornerFaceVector, geo.makeCornerFacePoint, geo.transformVector)
      && PointMapsCoherent(geo.makeEdgeFaceVector, geo.makeEdgeFacePoint, geo.transformVector)
  {
    forall q, t ensures SquareVector(SquarePoint(SquareTransform(SquareVector(q), t))) == SquareTransform(SquareVector(q), t) {
      SquareReadBack(q, t);
    }
    forall p, q, t | p != q ensures SquareTransform(SquareVector(p), t) != SquareTransform(SquareVector(q), t) {
      SquareTransformInjective(SquareVector(p), SquareVector(q), t);
    }
    assert PointMapsCoherent(SquareVector, SquarePoint, SquareTransform);
  }

  /** With no orientation, every corner and every edge maps to itself,
      provided the untransformed vector is unchanged and reads back as the
      point it came from. */
  lemma PrototypePointsOfUnorientedFace(face: TileFace, p: L.FacePoints, geo: L.Geometry)
    requires face.PrototypeOrientation == WfcTransforms2D.None
    requires forall v :: geo.transformVector(v, L.Transformations.None) == v
    requires forall q :: geo.makeCornerFacePoint(geo.makeCornerFaceVector(q)) == q
    requires forall q :: geo.makeEdgeFacePoint(geo.makeEdgeFaceVector(q)) == q
    ensures GetPrototypeCorner(face, p, geo) == p
    ensures GetPrototypeEdge(face, p, geo) == p
  {
  }

  // ---------------------------------------------------------------------
  //  FWfcTile
  // ---------------------------------------------------------------------

  /** `FWfcTile`. */
  datatype Tile = Tile(
    MinX: TileFace, MinY: TileFace, MinZ: TileFace,
    MaxX: TileFace, MaxY: TileFace, MaxZ: TileFace,
    WeightU32: int,
    Data: DataPtr,
    NicknameOverride: string,
    ImplicitPermutations: WfcImplicitTransformSet,
    PrecisePermutations: seq<WfcTransform3D>)

  /** A default-constructed tile, with the (zero-initialised) faces given. */
  function DefaultTile(face: TileFace): (t: Tile)
    ensures t.WeightU32 == 100 && t.Data == Null && t.NicknameOverride == ""
    ensures t.PrecisePermutations == [] && t.ImplicitPermutations == DefaultImplicitTransformSet
  {
    Tile(face, face, face, face, face, face, 100, Null, "", DefaultImplicitTransformSet, [])
  }

  /** `FWfcTile::GetDisplayName`. */
  function GetDisplayName(t: Tile): (name: string)
    ensures t.NicknameOverride != "" ==> name == t.NicknameOverride
    ensures t.NicknameOverride == "" && IsValidData(t.Data) ==> name == t.Data.target.editorDescription
    ensures t.NicknameOverride == "" && !IsValidData(t.Data) ==> name == "[null]"
  {
    if t.NicknameOverride != "" then t.NicknameOverride
    else if IsValidData(t.Data) then t.Data.target.editorDescription
    else "[null]"
  }

  /** A new tile has no nickname and no data, so it is shown as "[null]". */
  lemma DefaultTileDisplayName(face: TileFace)
    ensures GetDisplayName(DefaultTile(face)) == "[null]"
  {
  }

  /** `FWfcTile::GetFace` (const overload): the face on the given side. */
  function GetFace(t: Tile, dir: L.Directions3D): (f: TileFace)
    ensures dir == L.MinX ==> f == t.MinX
    ensures dir == L.MaxX ==> f == t.MaxX
    ensures dir == L.MinY ==> f == t.MinY
    ensures dir == L.MaxY ==> f == t.MaxY
    ensures dir == L.MinZ ==> f == t.MinZ
    ensures dir == L.MaxZ ==> f == t.MaxZ
  {
    match dir
    case MinX => t.MinX
    case MaxX => t.MaxX
    case MinY => t.MinY
    case MaxY => t.MaxY
    case MinZ => t.MinZ
    case MaxZ => t.MaxZ
  }

  /** The mutable overload of `GetFace` returns a reference to the same field
      as the const one; this is the tile after assigning `f` through it. */
  function SetFace(t: Tile, dir: L.Directions3D, f: TileFace): (u: Tile)
    ensures GetFace(u, dir) == f
    ensures forall d :: d != dir ==> GetFace(u, d) == GetFace(t, d)
    ensures u.WeightU32 == t.WeightU32 && u.Data == t.Data && u.NicknameOverride == t.NicknameOverride
    ensures u.ImplicitPermutations == t.ImplicitPermutations && u.PrecisePermutations == t.PrecisePermutations
  {
    match dir
    case MinX => t.(MinX := f)
    case MaxX => t.(MaxX := f)
    case MinY => t.(MinY := f)
    case MaxY => t.(MaxY := f)
    case MinZ => t.(MinZ := f)
    case MaxZ => t.(MaxZ := f)
  }

  /** `GetFace` picks the field named like the direction; writing through the
      mutable overload changes exactly the field the const overload reads, and
      writing back what was read changes nothing. */
  lemma GetFaceSelectsSameNamedField(t: Tile, dir: L.Directions3D, f: TileFace)
    ensures GetFace(t, L.MinX) == t.MinX && GetFace(t, L.MaxX) == t.MaxX
    ensures GetFace(t, L.MinY) == t.MinY && GetFace(t, L.MaxY) == t.MaxY
    ensures GetFace(t, L.MinZ) == t.MinZ && GetFace(t, L.MaxZ) == t.MaxZ
    ensures GetFace(SetFace(t, dir, f), dir) == f
    ensures forall d :: d != dir ==> GetFace(SetFace(t, dir, f), d) == GetFace(t, d)
    ensures SetFace(t, dir, GetFace(t, dir)) == t
    ensures var u := SetFace(t, dir, f);
      u.WeightU32 == t.WeightU32 && u.Data == t.Data && u.NicknameOverride == t.NicknameOverride &&
      u.ImplicitPermutations == t.ImplicitPermutations && u.PrecisePermutations == t.PrecisePermutations
  {
  }

  /** The library forms of the precise permutations. */
  function PreciseUnwrapped(precise: seq<WfcTransform3D>): set<L.Transform3D> {
    set i | 0 <= i < |precise| :: precise[i].Unwrap()
  }

  /** The transform set `GetSupportedTransforms()` returns: the explicit form of
      the implicit set, plus every precise permutation. */
  function SupportedTransforms(t: Tile, geo: L.Geometry): L.TransformSet {
    geo.getExplicit(ImplicitUnwrapped(t.ImplicitPermutations, geo.blankImplicitSet))
      + PreciseUnwrapped(t.PrecisePermutations)
  }

  /** `GetSupportedTransforms()`: starts from the explicit form of the implicit
      set and adds the precise permutations one at a time. */
  method GetSupportedTransforms(t: Tile, geo: L.Geometry) returns (output: L.TransformSet)
    ensures output == SupportedTransforms(t, geo)
    ensures forall i :: 0 <= i < |t.PrecisePermutations| ==> t.PrecisePermutations[i].Unwrap() in output
    ensures geo.getExplicit(ImplicitUnwrapped(t.ImplicitPermutations, geo.blankImplicitSet)) <= output
  {
    var implicitSet := UnwrapImplicit(t.ImplicitPermutations, geo.blankImplicitSet);
    output := geo.getExplicit(implicitSet);
    ghost var base := output;
    for i := 0 to |t.PrecisePermutations|
      invariant output == base + PreciseUnwrapped(t.PrecisePermutations[..i])
    {
      var p := t.PrecisePermutations[i];
      assert PreciseUnwrapped(t.PrecisePermutations[..i + 1])
          == PreciseUnwrapped(t.PrecisePermutations[..i]) + {p.Unwrap()} by {
        assert t.PrecisePermutations[..i + 1] == t.PrecisePermutations[..i] + [p];
      }
      output := output + {p.Unwrap()};
    }
    assert t.PrecisePermutations[..|t.PrecisePermutations|] == t.PrecisePermutations;
  }

  /** The reflected forms of a library transform set. */
  function WrapAll(s: L.TransformSet): set<WfcTransform3D> {
    set tr | tr in s :: TransformFromLib(tr)
  }

  /** `GetSupportedTransforms(TSet& output)`: empties the caller's set, then adds
      the reflected form of every supported transform.  `previous` is what the
      caller's set held before; the result does not depend on it. */
  method GetSupportedTransformsInto(t: Tile, geo: L.Geometry, previous: set<WfcTransform3D>)
    returns (output: set<WfcTransform3D>)
    ensures forall u: WfcTransform3D :: u in output <==> u.Unwrap() in SupportedTransforms(t, geo)
    ensures output == WrapAll(SupportedTransforms(t, geo))
  {
    output := previous;
    output := {};
    var supported := GetSupportedTransforms(t, geo);
    var rest := supported;
    while rest != {}
      invariant rest <= supported
      invariant output == WrapAll(supported - rest)
      decreases rest
    {
      var tr :| tr in rest;
      assert WrapAll(supported - (rest - {tr})) == WrapAll(supported - rest) + {TransformFromLib(tr)};
      output := output + {TransformFromLib(tr)};
      rest := rest - {tr};
    }
    assert supported - rest == supported;
    forall u: WfcTransform3D ensures u in output <==> u.Unwrap() in supported {
      TransformRoundTrip(u, u.Unwrap());
      if u in output {
        var tr :| tr in supported && TransformFromLib(tr) == u;
        TransformRoundTrip(u, tr);
      }
    }
  }

  /** `TArray<FWFC_Transform3D>::operator==`: same length, equal elements. */
  predicate PermutationsEqual(a: seq<WfcTransform3D>, b: seq<WfcTransform3D>) {
    |a| == |b| && forall i :: 0 <= i < |a| ==> a[i].Equals(b[i])
  }

  /** `FWfcTile::operator==`: the plain fields (faces, weight, data and the
      explicit form of the implicit set) are equal, and so are the precise
      permutation lists element by element.  The nickname is not compared.
      A tile equals itself, and equal tiles have the same face in every
      direction. */
  predicate TileEquals(t1: Tile, t2: Tile, geo: L.Geometry)
    ensures t1 == t2 ==> TileEquals(t1, t2, geo)
    ensures TileEquals(t1, t2, geo) ==> forall d :: GetFace(t1, d) == GetFace(t2, d)
  {
    && t1.MinX == t2.MinX && t1.MaxX == t2.MaxX
    && t1.MinY == t2.MinY && t1.MaxY == t2.MaxY
    && t1.MinZ == t2.MinZ && t1.MaxZ == t2.MaxZ
    && t1.WeightU32 == t2.WeightU32 && t1.Data == t2.Data
    && ImplicitSetEquals(t1.ImplicitPermutations, t2.ImplicitPermutations, geo)
    && PermutationsEqual(t1.PrecisePermutations, t2.PrecisePermutations)
  }

  /** The element-wise array comparison is sequence equality. */
  lemma PermutationsEqualIsEquality(a: seq<WfcTransform3D>, b: seq<WfcTransform3D>)
    ensures PermutationsEqual(a, b) <==> a == b
  {
    if PermutationsEqual(a, b) {
      assert forall i :: 0 <= i < |a| ==> a[i] == b[i];
    }
  }

  /** Tile equality is an equivalence: reflexive, symmetric and transitive.
      Tiles that differ only in their nickname compare equal, and equal tiles
      support the same transforms. */
  lemma TileEqualsIsEquivalence(t1: Tile, t2: Tile, t3: Tile, geo: L.Geometry, nick: string)
    ensures TileEquals(t1, t1, geo)
    ensures TileEquals(t1, t2, geo) ==> TileEquals(t2, t1, geo)
    ensures TileEquals(t1, t2, geo) && TileEquals(t2, t3, geo) ==> TileEquals(t1, t3, geo)
    ensures TileEquals(t1, t1.(NicknameOverride := nick), geo)
    ensures TileEquals(t1, t2, geo) ==> SupportedTransforms(t1, geo) == SupportedTransforms(t2, geo)
  {
    PermutationsEqualIsEquality(t1.PrecisePermutations, t1.PrecisePermutations);
    PermutationsEqualIsEquality(t1.PrecisePermutations, t2.PrecisePermutations);
    PermutationsEqualIsEquality(t2.PrecisePermutations, t1.PrecisePermutations);
    PermutationsEqualIsEquality(t2.PrecisePermutations, t3.PrecisePermutations);
    PermutationsEqualIsEquality(t1.PrecisePermutations, t3.PrecisePermutations);
  }
}
