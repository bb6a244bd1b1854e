/** The face prototype as WfcFacePrototype.h declares it: one symmetry tag per
    corner, unwrapped into point IDs by adding a per-prototype offset. */
module FacePrototypes {
  import L = WfcLibrary
  import opened Wrappers

  /** `PointSymmetry`: a tag a..d naming which corners of a face are alike. */
  datatype PointSymmetry = a | b | c | d

  /** The enumerator's value, 0 for `a` up to 3 for `d`. */
  function SymmetryValue(s: PointSymmetry): (v: nat)
    ensures v <= 3
  {
    match s
    case a => 0
    case b => 1
    case c => 2
    case d => 3
  }

  /** The tag whose value is `v`. */
  function SymmetryOfValue(v: int): Option<PointSymmetry> {
    if v == 0 then Some(a) else if v == 1 then Some(b)
    else if v == 2 then Some(c) else if v == 3 then Some(d)
    else None
  }

  /** `FWfcFacePrototype` (header form). */
  datatype FacePrototype = FacePrototype(
    pAA: PointSymmetry, pAB: PointSymmetry, pBA: PointSymmetry, pBB: PointSymmetry,
    PointNicknames: seq<string>,
    Nickname: string)
  {
    /** `GetPointSymmetry(corner)`: the tag of that corner. */
    function GetPointSymmetry(corner: L.FacePoints): (s: PointSymmetry)
      ensures corner == L.AA ==> s == pAA
      ensures corner == L.AB ==> s == pAB
      ensures corner == L.BA ==> s == pBA
      ensures corner == L.BB ==> s == pBB
    {
      match corner
      case AA => pAA
      case AB => pAB
      case BA => pBA
      case BB => pBB
    }

    /** The mutable overload of `GetPointSymmetry` returns a reference to the
        same field; this is the prototype after assigning `s` through it. */
    function WithPointSymmetry(corner: L.FacePoints, s: PointSymmetry): (r: FacePrototype)
      ensures r.GetPointSymmetry(corner) == s
      ensures forall q :: q != corner ==> r.GetPointSymmetry(q) == GetPointSymmetry(q)
      ensures r.PointNicknames == PointNicknames && r.Nickname == Nickname
    {
      match corner
      case AA => this.(pAA := s)
      case AB => this.(pAB := s)
      case BA => this.(pBA := s)
      case BB => this.(pBB := s)
    }

    /** `Unwrap(idOffset)`: each corner's point ID is the offset plus its tag. */
    function Unwrap(idOffset: int): (output: L.PerFacePoint)
      ensures forall p :: output.At(p) == idOffset + SymmetryValue(GetPointSymmetry(p))
      ensures forall p :: idOffset <= output.At(p) <= idOffset + 3
    {
      L.PerFacePoint(idOffset + SymmetryValue(pAA), idOffset + SymmetryValue(pAB),
                     idOffset + SymmetryValue(pBA), idOffset + SymmetryValue(pBB))
    }
  }

  /** A default-constructed prototype: tags a, b, c, d, nicknames "a".."d". */
  const DefaultFacePrototype: FacePrototype :=
    FacePrototype(a, b, c, d, ["a", "b", "c", "d"], "New Face")

  /** `INVALID_FACE_ID` and `FIRST_VALID_FACE_ID`. */
  const INVALID_FACE_ID: int := 0
  const FIRST_VALID_FACE_ID: int := 1

  /** Each corner's unwrapped ID is exactly the offset plus that corner's tag,
      so it lies in [idOffset, idOffset + 3]. */
  lemma UnwrapIsOffsetPlusSymmetry(f: FacePrototype, idOffset: int, p: L.FacePoints)
    ensures f.Unwrap(idOffset).At(p) == idOffset + SymmetryValue(f.GetPointSymmetry(p))
    ensures idOffset <= f.Unwrap(idOffset).At(p) <= idOffset + 3
  {
  }

  /** Recovers a corner's tag from its unwrapped ID, given the offset. */
  function SymmetryOfID(id: int, idOffset: int): Option<PointSymmetry> {
    SymmetryOfValue(id - idOffset)
  }

  /** Unwrapping loses no symmetry information: for a fixed offset, each tag can
      be read back from the point ID, so two prototypes unwrap alike exactly
      when all four of their corner tags agree. */
  lemma UnwrapRecoversSymmetry(f: FacePrototype, g: FacePrototype, idOffset: int)
    ensures forall p :: SymmetryOfID(f.Unwrap(idOffset).At(p), idOffset) == Some(f.GetPointSymmetry(p))
    ensures f.Unwrap(idOffset) == g.Unwrap(idOffset) <==>
              forall p :: f.GetPointSymmetry(p) == g.GetPointSymmetry(p)
  {
    forall p ensures SymmetryOfID(f.Unwrap(idOffset).At(p), idOffset) == Some(f.GetPointSymmetry(p)) {
      var s := f.GetPointSymmetry(p);
      assert f.Unwrap(idOffset).At(p) - idOffset == SymmetryValue(s);
    }
    if f.Unwrap(idOffset) == g.Unwrap(idOffset) {
      forall p ensures f.GetPointSymmetry(p) == g.GetPointSymmetry(p) {
        assert SymmetryOfID(g.Unwrap(idOffset).At(p), idOffset) == Some(g.GetPointSymmetry(p));
      }
    }
    if forall p :: f.GetPointSymmetry(p) == g.GetPointSymmetry(p) {
      assert f.GetPointSymmetry(L.AA) == g.GetPointSymmetry(L.AA);
      assert f.GetPointSymmetry(L.AB) == g.GetPointSymmetry(L.AB);
      assert f.GetPointSymmetry(L.BA) == g.GetPointSymmetry(L.BA);
      assert f.GetPointSymmetry(L.BB) == g.GetPointSymmetry(L.BB);
    }
  }

  /** The default prototype has four different tags, so it unwraps to four
      different point IDs: no corner of a new face matches another. */
  lemma DefaultPrototypeCornersDistinct(idOffset: int)
    ensures var u := DefaultFacePrototype.Unwrap(idOffset);
      u.At(L.AA) == idOffset && u.At(L.AB) == idOffset + 1 &&
      u.At(L.BA) == idOffset + 2 && u.At(L.BB) == idOffset + 3
    ensures forall p, q :: p != q ==>
      DefaultFacePrototype.Unwrap(idOffset).At(p) != DefaultFacePrototype.Unwrap(idOffset).At(q)
  {
  }
}
