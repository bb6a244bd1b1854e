/** The face prototype as WfcFacePrototype.cpp defines it: a corner table and
    an edge table (`FWfcFacePointDefs`), each naming up to three kinds of point
    and assigning one kind to each of the four face points. */
module FacePointDefinitions {
  import L = WfcLibrary
  import opened Wrappers

  /** `EWfcPointID`: no point, or one of the three point kinds. */
  datatype PointID = Null | P1 | P2 | P3

  /** The enumerator's value, in declaration order. */
  function PointIDValue(p: PointID): (v: nat)
    ensures v <= 3
  {
    match p
    case Null => 0
    case P1 => 1
    case P2 => 2
    case P3 => 3
  }

  /** The flags and names of a `FWfcFacePointDefs`, the part that
      `PostScriptConstruct` sanitises. */
  datatype PointFlags = PointFlags(
    AddPoint1: bool, AddPoint2: bool, AddPoint3: bool,
    NameOfPoint1: string, NameOfPoint2: string, NameOfPoint3: string)

  /** How many names `GatherPoints` collects: the flags are nested, so the count
      stops at the first flag that is off. */
  function LeadingPoints(f: PointFlags): (n: nat)
    ensures n <= 3
    ensures n >= 1 <==> f.AddPoint1
    ensures n >= 2 <==> f.AddPoint1 && f.AddPoint2
    ensures n == 3 <==> f.AddPoint1 && f.AddPoint2 && f.AddPoint3
  {
    if !f.AddPoint1 then 0 else if !f.AddPoint2 then 1 else if !f.AddPoint3 then 2 else 3
  }

  /** The number of flags that are on, wherever they are. */
  function CountFlags(f: PointFlags): nat {
    (if f.AddPoint1 then 1 else 0) + (if f.AddPoint2 then 1 else 0) + (if f.AddPoint3 then 1 else 0)
  }

  /** The flags and names after `PostScriptConstruct`. */
  function Sanitize(f: PointFlags): PointFlags {
    var f1 := if !f.AddPoint1
              then f.(NameOfPoint1 := "UNASSIGNED: 1", AddPoint2 := false, NameOfPoint2 := "UNASSIGNED: 2")
              else f;
    if !f1.AddPoint1 || !f1.AddPoint2
    then f1.(AddPoint3 := false, NameOfPoint3 := "UNASSIGNED: 3")
    else f1
  }

  /** After sanitising, a later point is added only if every earlier one is;
      a flag survives exactly when it and all flags before it were on; and the
      name of every point that is still added is untouched. */
  lemma SanitizeNests(f: PointFlags)
    ensures var g := Sanitize(f);
      && (g.AddPoint2 ==> g.AddPoint1) && (g.AddPoint3 ==> g.AddPoint2)
      && g.AddPoint1 == f.AddPoint1
      && g.AddPoint2 == (f.AddPoint1 && f.AddPoint2)
      && g.AddPoint3 == (f.AddPoint1 && f.AddPoint2 && f.AddPoint3)
      && (g.AddPoint1 ==> g.NameOfPoint1 == f.NameOfPoint1)
      && (g.AddPoint2 ==> g.NameOfPoint2 == f.NameOfPoint2)
      && (g.AddPoint3 ==> g.NameOfPoint3 == f.NameOfPoint3)
  {
  }

  /** Sanitising changes nothing when all three points are added, and
      sanitising twice is the same as sanitising once. */
  lemma SanitizeFixpoints(f: PointFlags)
    ensures f.AddPoint1 && f.AddPoint2 && f.AddPoint3 ==> Sanitize(f) == f
    ensures Sanitize(Sanitize(f)) == Sanitize(f)
  {
  }

  /** After sanitising, `GatherPoints` returns one name per flag that is on. */
  lemma SanitizedGatherCountsFlags(f: PointFlags)
    ensures LeadingPoints(Sanitize(f)) == CountFlags(Sanitize(f))
    ensures LeadingPoints(Sanitize(f)) == LeadingPoints(f)
  {
  }

  /** `FWfcFacePointDefs`. */
  class FacePointDefs {
    var AddPoint1: bool
    var AddPoint2: bool
    var AddPoint3: bool
    var NameOfPoint1: string
    var NameOfPoint2: string
    var NameOfPoint3: string
    var PointAA: PointID
    var PointAB: PointID
    var PointBA: PointID
    var PointBB: PointID

    constructor (flags: PointFlags, aa: PointID, ab: PointID, ba: PointID, bb: PointID)
      ensures Flags() == flags
      ensures PointAA == aa && PointAB == ab && PointBA == ba && PointBB == bb
    {
      AddPoint1, AddPoint2, AddPoint3 := flags.AddPoint1, flags.AddPoint2, flags.AddPoint3;
      NameOfPoint1, NameOfPoint2, NameOfPoint3 := flags.NameOfPoint1, flags.NameOfPoint2, flags.NameOfPoint3;
      PointAA, PointAB, PointBA, PointBB := aa, ab, ba, bb;
    }

    function Flags(): PointFlags
      reads this
    {
      PointFlags(AddPoint1, AddPoint2, AddPoint3, NameOfPoint1, NameOfPoint2, NameOfPoint3)
    }

    /** `GatherPoints`: the names of the added points, in order, stopping at
        the first point that is not added. */
    method GatherPoints() returns (output: seq<string>)
      ensures |output| == LeadingPoints(Flags())
      ensures output == [NameOfPoint1, NameOfPoint2, NameOfPoint3][..|output|]
    {
      output := [];
      if AddPoint1 {
        output := output + [NameOfPoint1];
        if AddPoint2 {
          output := output + [NameOfPoint2];
          if AddPoint3 {
            output := output + [NameOfPoint3];
          }
        }
      }
    }

    /** `PointAt`: the point kind assigned to a face point (the source returns
        a reference to that field). */
    function PointAt(point: L.FacePoints): (id: PointID)
      reads this
      ensures point == L.AA ==> id == PointAA
      ensures point == L.AB ==> id == PointAB
      ensures point == L.BA ==> id == PointBA
      ensures point == L.BB ==> id == PointBB
    {
      match point
      case AA => PointAA
      case AB => PointAB
      case BA => PointBA
      case BB => PointBB
    }

    /** `PostScriptConstruct`: makes the add flags nested and renames the
        points that are dropped; the point assignments are left alone. */
    method PostScriptConstruct()
      modifies this
      ensures Flags() == Sanitize(old(Flags()))
      ensures PointAA == old(PointAA) && PointAB == old(PointAB)
      ensures PointBA == old(PointBA) && PointBB == old(PointBB)
      ensures forall p :: PointAt(p) == old(PointAt(p))
    {
      if !AddPoint1 {
        NameOfPoint1 := "UNASSIGNED: 1";
        AddPoint2 := false;
        NameOfPoint2 := "UNASSIGNED: 2";
      }
      if !AddPoint1 || !AddPoint2 {
        AddPoint3 := false;
        NameOfPoint3 := "UNASSIGNED: 3";
      }
    }

    /** `GetName`: no name for the null point kind, otherwise that kind's name. */
    function GetName(pointID: PointID): (name: Option<string>)
      reads this
      ensures name.None? <==> pointID == Null
      ensures pointID == P1 ==> name == Some(NameOfPoint1)
      ensures pointID == P2 ==> name == Some(NameOfPoint2)
      ensures pointID == P3 ==> name == Some(NameOfPoint3)
    {
      match pointID
      case Null => None
      case P1 => Some(NameOfPoint1)
      case P2 => Some(NameOfPoint2)
      case P3 => Some(NameOfPoint3)
    }
  }

  /** `FWfcFacePrototype` (source-file form): a corner table and an edge table. */
  class FacePrototypeDefs {
    const Corners: FacePointDefs
    const Edges: FacePointDefs

    constructor (corners: FacePointDefs, edges: FacePointDefs)
      ensures Corners == corners && Edges == edges
    {
      Corners := corners;
      Edges := edges;
    }

    /** `Unwrap(pointIdOffset)`: every corner and every edge gets the offset
        plus the value of the point kind its table assigns to it. */
    method Unwrap(pointIdOffset: int) returns (id: L.FaceIdentifiers)
      ensures forall p :: id.Corners.At(p) == pointIdOffset + PointIDValue(Corners.PointAt(p))
      ensures forall p :: id.Edges.At(p) == pointIdOffset + PointIDValue(Edges.PointAt(p))
    {
      id := L.FaceIdentifiers(L.PerFacePoint(0, 0, 0, 0), L.PerFacePoint(0, 0, 0, 0));
      for i := 0 to L.N_FACE_POINTS
        invariant forall k :: 0 <= k < i ==>
          id.Corners.At(L.FacePointAt(k)) == pointIdOffset + PointIDValue(Corners.PointAt(L.FacePointAt(k)))
        invariant forall k :: 0 <= k < i ==>
          id.Edges.At(L.FacePointAt(k)) == pointIdOffset + PointIDValue(Edges.PointAt(L.FacePointAt(k)))
      {
        var facePoint := L.FacePointAt(i);
        id := id.(Corners := id.Corners.With(facePoint, pointIdOffset + PointIDValue(Corners.PointAt(facePoint))));
        id := id.(Edges := id.Edges.With(facePoint, pointIdOffset + PointIDValue(Edges.PointAt(facePoint))));
      }
      forall p ensures id.Corners.At(p) == pointIdOffset + PointIDValue(Corners.PointAt(p))
                    && id.Edges.At(p) == pointIdOffset + PointIDValue(Edges.PointAt(p))
      {
        L.FacePointAtCovers(p);
      }
    }
  }
}
