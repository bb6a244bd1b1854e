/** The generator facade (WfcGenerator.h, WfcGenerator.cpp): it owns at most one
    run of the WFC++ solver, reports its status, progress and cells, forwards
    edits to it, and summarises the temperatures of the unsolved cells.

    The solver (`WFC::Tiled3D::StandardRunner`) belongs to the WFC++ library and
    is not part of this model.  Its state is the value `RunnerState`, of which
    the generator reads only the cell grid, the counters and the three settings
    it writes; what the solver does when constructed, ticked or edited is given
    by `Runtime`, a record of total functions the caller supplies. */
module Generators {
  import opened Wrappers
  import L = WfcLibrary
  import opened DataReflection
  import T = Tiles
  import TS = Tilesets
  import FP = FacePrototypes

  /** `WfcSimState`. */
  datatype SimState = Off | Running | Finished

  /** A `float` result: a finite value (a real here; rounding is not modelled),
      an infinity, or not-a-number. */
  datatype Float = Finite(value: real) | PosInf | NegInf | NaN

  /** `FIntVector` / `WFC::Vector3i`. */
  datatype Vec3 = Vec3(x: int, y: int, z: int)

  /** A cell of the solver's grid as the generator sees it.  `Temperature` is
      what the solver's `GetTemperature` reports for the cell. */
  datatype Cell = Cell(
    IsSet: bool, ChosenTile: int, ChosenPermutation: L.Transform3D,
    NPossibilities: int, Temperature: real)

  /** The solver's `Array3D` of cells, stored flat with X varying fastest. */
  datatype GridData = GridData(dims: Vec3, cells: seq<Cell>) {

    predicate WellFormed() {
      dims.x >= 0 && dims.y >= 0 && dims.z >= 0 && |cells| == dims.x * dims.y * dims.z
    }

    /** `Region3i(dims).Contains(p)`, and `IsIndexValid(p)`. */
    predicate Contains(p: Vec3) {
      0 <= p.x < dims.x && 0 <= p.y < dims.y && 0 <= p.z < dims.z
    }

    /** Where the cell at `p` sits in `cells`. */
    function Index(p: Vec3): int {
      p.x + dims.x * (p.y + dims.y * p.z)
    }
  }

  type CellGrid = g: GridData | g.WellFormed() witness GridData(Vec3(0, 0, 0), [])

  /** Every position inside the grid has its cell inside the flat sequence. */
  lemma IndexInBounds(g: CellGrid, p: Vec3)
    requires g.Contains(p)
    ensures 0 <= g.Index(p) < |g.cells|
  {
    var dx, dy, dz := g.dims.x, g.dims.y, g.dims.z;
    var yz := p.y + dy * p.z;
    MulMonotone(dy, p.z, dz - 1);
    assert dy * (dz - 1) == dy * dz - dy;
    assert 0 <= yz <= dy * dz - 1;
    MulMonotone(dx, yz, dy * dz - 1);
    assert dx * (dy * dz - 1) == dx * (dy * dz) - dx;
    assert dx * (dy * dz) == dx * dy * dz;
  }

  /** Multiplying by a non-negative factor keeps the order; `IndexInBounds`
      uses it to bound the flat cell index by the grid's size. */
  lemma MulMonotone(k: int, a: int, b: int)
    requires k >= 0 && 0 <= a <= b
    ensures 0 <= k * a <= k * b
  {
  }

  /** The cell at an in-range position. */
  function CellAt(g: CellGrid, p: Vec3): Cell
    requires g.Contains(p)
  {
    IndexInBounds(g, p);
    g.cells[g.Index(p)]
  }

  /** The part of a `StandardRunner` the generator reads or writes. */
  datatype RunnerState = RunnerState(
    Grid: CellGrid,
    NPermutedTiles: int,
    PriorityWeightRandomness: real,
    ClearRegionGrowthRateT: real,
    MaxUnwindingCount: int,
    CurrentTimestamp: int)

  /** What the solver's `Tick` / `TickN` report, and the runner afterwards. */
  datatype TickResult = TickResult(isFinished: bool, after: RunnerState)

  /** `UWfcTileset::Unwrapped`: the tileset translated for the library. */
  datatype LibraryData = LibraryData(
    WfcTileIDs: seq<int>,
    WfcTileIDByUnrealID: map<int, int>,
    WfcFacePrototypeFirstIDs: map<int, int>)

  const EmptyLibraryData: LibraryData := LibraryData([], map[], map[])

  /** The solver's operations: construction from the unwrapped tileset, the
      grid size and the seed; one tick; up to `n` ticks; and the two edits. */
  datatype Runtime = Runtime(
    construct: (LibraryData, Vec3, int) -> RunnerState,
    tick: RunnerState -> TickResult,
    tickN: (RunnerState, int) -> TickResult,
    setCell: (RunnerState, Vec3, int, L.Transform3D, bool) -> RunnerState,
    setFaceConstraint: (RunnerState, Vec3, L.Directions3D, L.PerFacePoint) -> RunnerState)

  // ---------------------------------------------------------------------
  //  Cell reports
  // ---------------------------------------------------------------------

  /** `FWfcCellSet`. */
  datatype CellSet = CellSet(TileID: int, TilePermutation: WfcTransform3D, TileGameData: T.DataPtr)

  /** `FWfcCellUnset`. */
  datatype CellUnset = CellUnset(NPossibilities: int)

  /** `FWfcCellStatus`. */
  datatype CellStatus = CellStatus(Temperature: real, IsSet: bool, IfUnset: CellUnset, IfSet: CellSet)

  const DefaultCellSet: CellSet := CellSet(-1, DefaultTransform, T.Null)
  const DefaultCellUnset: CellUnset := CellUnset(0)
  const DefaultCellStatus: CellStatus := CellStatus(0.0, false, DefaultCellUnset, DefaultCellSet)

  /** The default-initialised reports: no tile (ID -1, no data, untransformed),
      no possibilities, temperature 0 and not set. */
  lemma DefaultCellReports()
    ensures DefaultCellSet.TileID == -1 && DefaultCellSet.TileGameData == T.Null
    ensures DefaultCellSet.TilePermutation.Unwrap() == L.Transform3D(false, L.Rotations3D.None)
    ensures DefaultCellUnset.NPossibilities == 0
    ensures DefaultCellStatus.Temperature == 0.0 && !DefaultCellStatus.IsSet
  {
  }

  // ---------------------------------------------------------------------
  //  Progress
  // ---------------------------------------------------------------------

  /** How many cells are set. */
  function CountSet(cells: seq<Cell>): nat {
    if |cells| == 0 then 0
    else CountSet(cells[..|cells| - 1]) + (if cells[|cells| - 1].IsSet then 1 else 0)
  }

  /** At most every cell is set; all are counted exactly when all are set, and
      none exactly when none is. */
  lemma {:induction false} CountSetBounds(cells: seq<Cell>)
    ensures CountSet(cells) <= |cells|
    ensures CountSet(cells) == |cells| <==> forall i :: 0 <= i < |cells| ==> cells[i].IsSet
    ensures CountSet(cells) == 0 <==> forall i :: 0 <= i < |cells| ==> !cells[i].IsSet
  {
    if |cells| > 0 {
      var init := cells[..|cells| - 1];
      CountSetBounds(init);
      assert forall i :: 0 <= i < |init| ==> init[i] == cells[i];
    }
  }

  /** A count out of a positive total is a share in [0, 1], and is 1 exactly
      when the count is the total. */
  lemma ShareBounds(count: nat, total: nat)
    requires 0 < total && count <= total
    ensures 0.0 <= count as real / total as real <= 1.0
    ensures count as real / total as real == 1.0 <==> count == total
  {
    var q := count as real / total as real;
    assert q * total as real == count as real;
  }

  // ---------------------------------------------------------------------
  //  Temperature statistics
  // ---------------------------------------------------------------------

  /** The temperatures of the unset cells, in grid order. */
  function UnsetTemperatures(cells: seq<Cell>): seq<real> {
    if |cells| == 0 then []
    else UnsetTemperatures(cells[..|cells| - 1])
         + (if cells[|cells| - 1].IsSet then [] else [cells[|cells| - 1].Temperature])
  }

  /** `FMath::Min(a, t)`, which picks `a` when `a <= t`. */
  function FloatMin(a: Float, t: real): Float {
    match a
    case Finite(v) => if v <= t then a else Finite(t)
    case NegInf => NegInf
    case _ => Finite(t)
  }

  /** `FMath::Max(a, t)`, which picks `a` when `a >= t`. */
  function FloatMax(a: Float, t: real): Float {
    match a
    case Finite(v) => if v >= t then a else Finite(t)
    case PosInf => PosInf
    case _ => Finite(t)
  }

  /** The running minimum, starting from +infinity. */
  function MinOf(ts: seq<real>): Float {
    if |ts| == 0 then PosInf else FloatMin(MinOf(ts[..|ts| - 1]), ts[|ts| - 1])
  }

  /** The running maximum, starting from -infinity. */
  function MaxOf(ts: seq<real>): Float {
    if |ts| == 0 then NegInf else FloatMax(MaxOf(ts[..|ts| - 1]), ts[|ts| - 1])
  }

  function Sum(ts: seq<real>): real {
    if |ts| == 0 then 0.0 else Sum(ts[..|ts| - 1]) + ts[|ts| - 1]
  }

  /** With no values the extremes stay infinite; otherwise they are finite,
      are among the values, and bound every value. */
  lemma {:induction false} MinMaxAreExtremes(ts: seq<real>)
    ensures |ts| == 0 ==> MinOf(ts) == PosInf && MaxOf(ts) == NegInf
    ensures |ts| > 0 ==> MinOf(ts).Finite? && MaxOf(ts).Finite?
    ensures |ts| > 0 ==> MinOf(ts).value in ts && MaxOf(ts).value in ts
    ensures |ts| > 0 ==> forall t :: t in ts ==> MinOf(ts).value <= t <= MaxOf(ts).value
  {
    if |ts| > 0 {
      var init := ts[..|ts| - 1];
      MinMaxAreExtremes(init);
      assert ts == init + [ts[|ts| - 1]];
    }
  }

  /** The sum of values between `lo` and `hi` is between n*lo and n*hi. */
  lemma {:induction false} SumBetween(ts: seq<real>, lo: real, hi: real)
    requires forall t :: t in ts ==> lo <= t <= hi
    ensures |ts| as real * lo <= Sum(ts) <= |ts| as real * hi
  {
    if |ts| > 0 {
      var init, last := ts[..|ts| - 1], ts[|ts| - 1];
      assert forall t :: t in init ==> t in ts;
      SumBetween(init, lo, hi);
      assert last in ts;
      var n := |init| as real;
      assert Sum(ts) == Sum(init) + last;
      assert |ts| as real == n + 1.0;
      assert (n + 1.0) * lo == n * lo + lo && (n + 1.0) * hi == n * hi + hi;
    }
  }

  /** A value between n*lo and n*hi, divided by a positive n, is between lo and
      hi; `MeanBetweenExtremes` uses it to bound the mean by the extremes. */
  lemma DivBetween(s: real, n: real, lo: real, hi: real)
    requires n > 0.0 && n * lo <= s <= n * hi
    ensures lo <= s / n <= hi
  {
    var m := s / n;
    assert s == m * n;
    assert n * (m - lo) >= 0.0 && n * (hi - m) >= 0.0;
  }

  /** The mean the generator reports lies between the minimum and the maximum. */
  lemma MeanBetweenExtremes(ts: seq<real>)
    requires |ts| > 0
    ensures MinOf(ts).Finite? && MaxOf(ts).Finite?
    ensures MinOf(ts).value <= Sum(ts) / |ts| as real <= MaxOf(ts).value
  {
    MinMaxAreExtremes(ts);
    var lo, hi := MinOf(ts).value, MaxOf(ts).value;
    SumBetween(ts, lo, hi);
    DivBetween(Sum(ts), |ts| as real, lo, hi);
  }

  /** One more cell adds its temperature to the list exactly when it is unset. */
  lemma UnsetTemperaturesStep(cells: seq<Cell>, i: nat)
    requires i < |cells|
    ensures UnsetTemperatures(cells[..i + 1])
         == UnsetTemperatures(cells[..i]) + (if cells[i].IsSet then [] else [cells[i].Temperature])
  {
    assert cells[..i + 1][..i] == cells[..i];
  }

  /** Each statistic of a list with one more value follows from the statistic
      of the list without it. */
  lemma StatisticsStep(seen: seq<real>, t: real)
    ensures MinOf(seen + [t]) == FloatMin(MinOf(seen), t)
    ensures MaxOf(seen + [t]) == FloatMax(MaxOf(seen), t)
    ensures Sum(seen + [t]) == Sum(seen) + t
    ensures InsertionSorted(seen + [t]) == InsertSorted(InsertionSorted(seen), t)
  {
    assert (seen + [t])[..|seen|] == seen;
  }

  predicate Sorted(s: seq<real>) {
    forall i, j :: 0 <= i < j < |s| ==> s[i] <= s[j]
  }

  /** `Algo::LowerBound(s, t)`: the first position whose value is not below `t`. */
  function LowerBound(s: seq<real>, t: real): (i: nat)
    ensures i <= |s|
    ensures forall j :: 0 <= j < i ==> s[j] < t
    ensures i < |s| ==> t <= s[i]
  {
    if |s| == 0 || t <= s[0] then 0 else 1 + LowerBound(s[1..], t)
  }

  /** The reference insertion of `t` into a sorted sequence: before the first
      value that is not below it. */
  function InsertSorted(s: seq<real>, t: real): (r: seq<real>)
    ensures |r| == |s| + 1
  {
    if |s| == 0 || t <= s[0] then [t] + s else [s[0]] + InsertSorted(s[1..], t)
  }

  /** The values inserted one at a time, in order, into an initially empty
      sorted sequence. */
  function InsertionSorted(ts: seq<real>): (r: seq<real>)
    ensures |r| == |ts|
  {
    if |ts| == 0 then [] else InsertSorted(InsertionSorted(ts[..|ts| - 1]), ts[|ts| - 1])
  }

  /** `sortedValues.Insert(t, LowerBound(sortedValues, t))` is the reference
      insertion. */
  lemma {:induction false} InsertAtLowerBound(s: seq<real>, t: real)
    ensures s[..LowerBound(s, t)] + [t] + s[LowerBound(s, t)..] == InsertSorted(s, t)
  {
    if |s| == 0 || t <= s[0] {
    } else {
      var k := LowerBound(s[1..], t);
      InsertAtLowerBound(s[1..], t);
      assert s[..k + 1] == [s[0]] + s[1..][..k];
      assert s[k + 1..] == s[1..][k..];
    }
  }

  /** Inserting adds exactly `t` to the values. */
  lemma {:induction false} InsertSortedAddsValue(s: seq<real>, t: real)
    ensures multiset(InsertSorted(s, t)) == multiset(s) + multiset{t}
  {
    if |s| == 0 || t <= s[0] {
    } else {
      InsertSortedAddsValue(s[1..], t);
      assert s == [s[0]] + s[1..];
    }
  }

  /** Inserting into a sorted sequence keeps it sorted. */
  lemma {:induction false} InsertSortedKeepsOrder(s: seq<real>, t: real)
    requires Sorted(s)
    ensures Sorted(InsertSorted(s, t))
  {
    if |s| == 0 || t <= s[0] {
    } else {
      var rest := InsertSorted(s[1..], t);
      InsertSortedKeepsOrder(s[1..], t);
      assert rest[0] == t || rest[0] == s[1];
      assert s[0] <= rest[0];
      var r := [s[0]] + rest;
      forall i, j | 0 <= i < j < |r| ensures r[i] <= r[j] {
        if i == 0 {
          assert rest[0] <= rest[j - 1];
        } else {
          assert r[i] == rest[i - 1] && r[j] == rest[j - 1];
        }
      }
    }
  }

  /** The sequence the generator keeps is sorted and holds exactly the values
      seen, so its middle element is a median of them. */
  lemma {:induction false} InsertionSortedIsSortedPermutation(ts: seq<real>)
    ensures Sorted(InsertionSorted(ts))
    ensures multiset(InsertionSorted(ts)) == multiset(ts)
  {
    if |ts| > 0 {
      var init := ts[..|ts| - 1];
      InsertionSortedIsSortedPermutation(init);
      InsertSortedKeepsOrder(InsertionSorted(init), ts[|ts| - 1]);
      InsertSortedAddsValue(InsertionSorted(init), ts[|ts| - 1]);
      assert ts == init + [ts[|ts| - 1]];
    }
  }

  // ---------------------------------------------------------------------
  //  The SetFace guard
  // ---------------------------------------------------------------------

  /** The face-prototype check in `SetFace` as written: the ID must be a
      position in [0, Num()) of the prototype map. */
  predicate SetFaceGuardAsWritten(facePrototypeId: int, protos: seq<TS.Entry<FP.FacePrototype>>) {
    !(facePrototypeId < 0 || facePrototypeId >= |protos|)
  }

  /** The prototype map is keyed by ID and IDs start at 1, so the check as
      written rejects the only prototype of a one-prototype tileset and lets
      through the null ID, whose lookup then fails. */
  lemma SetFaceGuardAsWrittenMisreadsIDs()
    ensures var protos := [TS.Entry(FP.FIRST_VALID_FACE_ID, FP.DefaultFacePrototype)];
      && TS.HasKey(protos, FP.FIRST_VALID_FACE_ID) && !SetFaceGuardAsWritten(FP.FIRST_VALID_FACE_ID, protos)
      && SetFaceGuardAsWritten(FP.INVALID_FACE_ID, protos) && TS.Lookup(protos, FP.INVALID_FACE_ID).None?
  {
    var protos := [TS.Entry(FP.FIRST_VALID_FACE_ID, FP.DefaultFacePrototype)];
    assert protos[0].key == FP.FIRST_VALID_FACE_ID;
  }

  /** The check the lookup needs: the ID is a key of the prototype map. */
  predicate SetFaceGuard(facePrototypeId: int, protos: seq<TS.Entry<FP.FacePrototype>>) {
    TS.HasKey(protos, facePrototypeId)
  }

  /** The corrected check passes exactly when the prototype lookup succeeds. */
  lemma SetFaceGuardMeansLookupDefined(facePrototypeId: int, protos: seq<TS.Entry<FP.FacePrototype>>)
    ensures SetFaceGuard(facePrototypeId, protos) <==> TS.Lookup(protos, facePrototypeId).Some?
  {
    TS.LookupDefinedIffKey(protos, facePrototypeId);
  }

  /** The null ID names no prototype: in a tileset whose prototypes all carry
      valid IDs (from `FIRST_VALID_FACE_ID` up), the corrected check rejects
      `INVALID_FACE_ID`, and its lookup finds nothing. */
  lemma {:induction false} SetFaceGuardRejectsNullID(protos: seq<TS.Entry<FP.FacePrototype>>)
    requires forall i :: 0 <= i < |protos| ==> protos[i].key >= FP.FIRST_VALID_FACE_ID
    ensures !SetFaceGuard(FP.INVALID_FACE_ID, protos)
    ensures TS.Lookup(protos, FP.INVALID_FACE_ID).None?
  {
    SetFaceGuardMeansLookupDefined(FP.INVALID_FACE_ID, protos);
  }

  /** A conversion to a 32-bit signed integer: the value modulo 2^32, taken
      in [-2^31, 2^31). */
  function ToInt32(v: int): int {
    (v + 0x8000_0000) % 0x1_0000_0000 - 0x8000_0000
  }

  /** `IsValid(tiles) && tiles->Tiles.Num() != 0`. */
  predicate Usable(tiles: TS.Tileset?)
    reads tiles
  {
    tiles != null && !tiles.PendingKill && |tiles.Tiles| > 0
  }

  // ---------------------------------------------------------------------
  //  UWfcGenerator
  // ---------------------------------------------------------------------

  /** `UWfcGenerator`. */
  class Generator {
    var tileset: TS.Tileset?
    var status: SimState
    var state: Option<RunnerState>
    var wfcLibraryData: LibraryData

    /** A run in progress always has a solver. */
    predicate Valid()
      reads this
    {
      status == Running ==> state.Some?
    }

    constructor ()
      ensures status == Off && state.None? && tileset == null
      ensures Valid()
    {
      tileset := null;
      status := Off;
      state := Option.None;
      wfcLibraryData := EmptyLibraryData;
    }

    /** `GetStatus`: the current status. */
    function GetStatus(): (s: SimState)
      reads this
      ensures s == status
    {
      status
    }

    /** `IsRunning`: whether the status is `Running`. */
    predicate IsRunning()
      reads this
      ensures IsRunning() <==> status == Running
      ensures !IsRunning() <==> status == Off || status == Finished
    {
      GetStatus() == Running
    }

    /** `GetNTilePossibilities`: the solver's count of tile permutations, or 0
        when there is no solver. */
    function GetNTilePossibilities(): (n: int)
      reads this
      ensures state.None? ==> n == 0
      ensures state.Some? ==> n == state.value.NPermutedTiles
    {
      if state.Some? then state.value.NPermutedTiles else 0
    }

    /** `GetTickCount`: the solver's timestamp, cast to a 32-bit `int`. */
    function GetTickCount(): (n: int)
      reads this
      requires state.Some?
      ensures -0x8000_0000 <= n < 0x8000_0000
      ensures (n - state.value.CurrentTimestamp) % 0x1_0000_0000 == 0
      ensures -0x8000_0000 <= state.value.CurrentTimestamp < 0x8000_0000 ==> n == state.value.CurrentTimestamp
    {
      ToInt32(state.value.CurrentTimestamp)
    }

    /** `GetProgress`: 1 when finished, 0 when off, and while running the share
        of the grid's cells that are set (not-a-number for an empty grid). */
    method GetProgress() returns (progress: Float)
      requires Valid()
      ensures status == Finished ==> progress == Finite(1.0)
      ensures status == Off ==> progress == Finite(0.0)
      ensures status == Running && |state.value.Grid.cells| == 0 ==> progress == NaN
      ensures status == Running && |state.value.Grid.cells| > 0 ==>
        && progress == Finite(CountSet(state.value.Grid.cells) as real / |state.value.Grid.cells| as real)
        && 0.0 <= progress.value <= 1.0
        && (progress.value == 1.0 <==> forall i :: 0 <= i < |state.value.Grid.cells| ==> state.value.Grid.cells[i].IsSet)
    {
      match GetStatus()
      case Finished => return Finite(1.0);
      case Off => return Finite(0.0);
      case Running =>
        var cells := state.value.Grid.cells;
        var nFinished := 0;
        for i := 0 to |cells|
          invariant nFinished == CountSet(cells[..i])
        {
          assert cells[..i + 1][..i] == cells[..i];
          if cells[i].IsSet {
            nFinished := nFinished + 1;
          }
        }
        assert cells[..|cells|] == cells;
        if |cells| == 0 {
          return NaN;
        }
        CountSetBounds(cells);
        ShareBounds(nFinished, |cells|);
        progress := Finite(nFinished as real / |cells| as real);
    }

    /** `GetCell`: the report for one cell.  Out of range it is a default report
        with temperature -1; in range it mirrors the cell, naming the chosen tile
        by its tileset ID when set and the number of possibilities when not. */
    function GetCell(cellPos: Vec3): (r: CellStatus)
      reads this, tileset
      requires status != Off && state.Some?
      requires state.value.Grid.Contains(cellPos) && CellAt(state.value.Grid, cellPos).IsSet ==>
        && 0 <= CellAt(state.value.Grid, cellPos).ChosenTile < |wfcLibraryData.WfcTileIDs|
        && tileset != null
        && TS.HasKey(tileset.Tiles, wfcLibraryData.WfcTileIDs[CellAt(state.value.Grid, cellPos).ChosenTile])
      ensures !state.value.Grid.Contains(cellPos) ==>
        r == CellStatus(-1.0, false, DefaultCellUnset, DefaultCellSet)
      ensures state.value.Grid.Contains(cellPos) ==>
        var cell := CellAt(state.value.Grid, cellPos);
        && r.IsSet == cell.IsSet && r.Temperature == cell.Temperature
        && (cell.IsSet ==>
              && r.IfSet.TileID == wfcLibraryData.WfcTileIDs[cell.ChosenTile]
              && r.IfSet.TilePermutation.Unwrap() == cell.ChosenPermutation
              && TS.Lookup(tileset.Tiles, r.IfSet.TileID).Some?
              && r.IfSet.TileGameData == TS.Lookup(tileset.Tiles, r.IfSet.TileID).value.Data
              && (exists i :: 0 <= i < |tileset.Tiles| && tileset.Tiles[i].key == r.IfSet.TileID
                              && tileset.Tiles[i].value.Data == r.IfSet.TileGameData)
              && r.IfUnset == DefaultCellUnset)
        && (!cell.IsSet ==> r.IfUnset.NPossibilities == cell.NPossibilities && r.IfSet == DefaultCellSet)
    {
      var g := state.value.Grid;
      if !g.Contains(cellPos) then
        CellStatus(-1.0, false, DefaultCellUnset, DefaultCellSet)
      else
        var cell := CellAt(g, cellPos);
        if cell.IsSet then
          var tileID := wfcLibraryData.WfcTileIDs[cell.ChosenTile];
          TS.LookupDefinedIffKey(tileset.Tiles, tileID);
          TransformRoundTrip(TransformFromLib(cell.ChosenPermutation), cell.ChosenPermutation);
          CellStatus(cell.Temperature, true, DefaultCellUnset,
                     CellSet(tileID, TransformFromLib(cell.ChosenPermutation), TS.Lookup(tileset.Tiles, tileID).value.Data))
        else
          CellStatus(cell.Temperature, false, CellUnset(cell.NPossibilities), DefaultCellSet)
    }

    /** `SetCell`: forwards the edit to the solver, translating the tile ID and
        the transform; does nothing without a solver or out of range. */
    method SetCell(cell: Vec3, unrealTileID: int, permutation: WfcTransform3D, persistent: bool, rt: Runtime)
      requires Valid()
      requires state.Some? && state.value.Grid.Contains(cell) ==> unrealTileID in wfcLibraryData.WfcTileIDByUnrealID
      modifies this
      ensures Valid()
      ensures status == old(status) && tileset == old(tileset) && wfcLibraryData == old(wfcLibraryData)
      ensures old(state).None? || !old(state.value.Grid.Contains(cell)) ==> state == old(state)
      ensures old(state).Some? && old(state.value.Grid.Contains(cell)) ==>
        state == Some(rt.setCell(old(state.value), cell, wfcLibraryData.WfcTileIDByUnrealID[unrealTileID],
                                 permutation.Unwrap(), persistent))
    {
      if state.None? {
        return;
      }
      if !state.value.Grid.Contains(cell) {
        return;
      }
      var wfcTileID := wfcLibraryData.WfcTileIDByUnrealID[unrealTileID];
      state := Some(rt.setCell(state.value, cell, wfcTileID, permutation.Unwrap(), persistent));
    }

    /** `SetFace`, with the prototype check made on the map's keys: constrains
        one face of one cell to the prototype's unwrapped point IDs; does
        nothing without a solver, out of range, or for an unknown prototype.
        The requested orientation is not used. */
    method SetFace(cell: Vec3, face: WfcDirections3D, facePrototypeId: int,
                   facePermutationOrientation: WfcTransforms2D, rt: Runtime)
      requires Valid()
      requires state.Some? && state.value.Grid.Contains(cell) ==> tileset != null
      requires state.Some? && state.value.Grid.Contains(cell) && tileset != null
               && SetFaceGuard(facePrototypeId, tileset.FacePrototypes) ==>
               facePrototypeId in wfcLibraryData.WfcFacePrototypeFirstIDs
      modifies this
      ensures Valid()
      ensures status == old(status) && tileset == old(tileset) && wfcLibraryData == old(wfcLibraryData)
      ensures (old(state).None? || !old(state.value.Grid.Contains(cell)) ||
               !SetFaceGuard(facePrototypeId, tileset.FacePrototypes)) ==> state == old(state)
      ensures old(state).Some? && old(state.value.Grid.Contains(cell)) &&
              SetFaceGuard(facePrototypeId, tileset.FacePrototypes) ==>
        && TS.Lookup(tileset.FacePrototypes, facePrototypeId).Some?
        && state == Some(rt.setFaceConstraint(
             old(state.value), cell, DirectionToLib(face),
             TS.Lookup(tileset.FacePrototypes, facePrototypeId).value
               .Unwrap(wfcLibraryData.WfcFacePrototypeFirstIDs[facePrototypeId])))
    {
      if state.None? {
        return;
      }
      if !state.value.Grid.Contains(cell) {
        return;
      }
      if !SetFaceGuard(facePrototypeId, tileset.FacePrototypes) {
        return;
      }
      SetFaceGuardMeansLookupDefined(facePrototypeId, tileset.FacePrototypes);
      var points := TS.Lookup(tileset.FacePrototypes, facePrototypeId).value;
      state := Some(rt.setFaceConstraint(state.value, cell, DirectionToLib(face),
                                         points.Unwrap(wfcLibraryData.WfcFacePrototypeFirstIDs[facePrototypeId])));
    }

    /** `Stop`: the run counts as finished; the solver is kept, so its results
        can still be read. */
    method Stop()
      modifies this
      ensures status == Finished && Valid()
      ensures state == old(state) && tileset == old(tileset) && wfcLibraryData == old(wfcLibraryData)
      ensures GetNTilePossibilities() == old(GetNTilePossibilities())
    {
      status := Finished;
    }

    /** `Cancel`: the generator is off and the solver is discarded.  The new
        state does not depend on the old one, so cancelling twice is the same
        as cancelling once. */
    method Cancel()
      modifies this
      ensures status == Off && state.None? && Valid()
      ensures tileset == old(tileset) && wfcLibraryData == old(wfcLibraryData)
      ensures old(status) == Off && old(state).None? ==> status == old(status) && state == old(state)
    {
      status := Off;
      state := Option.None;
    }

    /** `Start`: cancels a run in progress, then records the tileset.  A null,
        destroyed or empty tileset leaves the generator not running; otherwise
        a new solver is built from the unwrapped tileset (`unwrapped`, the
        result of the tileset's `Unwrap`), given the three settings, and the
        generator is running.  The periodic flags are not used. */
    method Start(tiles: TS.Tileset?, gridSize: Vec3, seed: int,
                 temperatureClearGrowthRateT: real, fuzziness: real, maxUnwinding: int,
                 periodicX: bool, periodicY: bool, periodicZ: bool,
                 unwrapped: LibraryData, rt: Runtime)
      requires Valid()
      modifies this
      ensures Valid() && tileset == tiles
      ensures !Usable(tiles) ==> status != Running && wfcLibraryData == old(wfcLibraryData)
      ensures !Usable(tiles) && old(status) == Running ==> status == Off && state.None?
      ensures !Usable(tiles) && old(status) != Running ==> status == old(status) && state == old(state)
      ensures Usable(tiles) ==>
        && status == Running && wfcLibraryData == unwrapped
        && state.Some?
        && state.value == rt.construct(unwrapped, gridSize, seed).(
             PriorityWeightRandomness := fuzziness,
             ClearRegionGrowthRateT := temperatureClearGrowthRateT,
             MaxUnwindingCount := maxUnwinding)
    {
      if IsRunning() {
        Cancel();
      }
      tileset := tiles;
      if !Usable(tileset) {
        return;
      }
      wfcLibraryData := unwrapped;
      var runner := rt.construct(wfcLibraryData, gridSize, seed);
      runner := runner.(PriorityWeightRandomness := fuzziness);
      runner := runner.(ClearRegionGrowthRateT := temperatureClearGrowthRateT);
      runner := runner.(MaxUnwindingCount := maxUnwinding);
      state := Some(runner);
      status := Running;
    }

    /** `Tick`: one step of the solver; the run is finished exactly when the
        solver says so, and running otherwise. */
    method Tick(rt: Runtime)
      requires status == Running && state.Some?
      modifies this
      ensures Valid()
      ensures state == Some(rt.tick(old(state.value)).after)
      ensures status == Finished <==> rt.tick(old(state.value)).isFinished
      ensures status == Running <==> !rt.tick(old(state.value)).isFinished
      ensures tileset == old(tileset) && wfcLibraryData == old(wfcLibraryData)
    {
      var result := rt.tick(state.value);
      state := Some(result.after);
      if result.isFinished {
        status := Finished;
      } else {
        status := Running;
      }
    }

    /** `RunToEnd`: up to `timeoutIterations` steps; returns whether the solver
        finished, and the status says the same. */
    method RunToEnd(timeoutIterations: int, rt: Runtime) returns (finished: bool)
      requires state.Some?
      modifies this
      ensures Valid()
      ensures finished == rt.tickN(old(state.value), timeoutIterations).isFinished
      ensures state == Some(rt.tickN(old(state.value), timeoutIterations).after)
      ensures status == Finished <==> finished
      ensures status == Running <==> !finished
      ensures tileset == old(tileset) && wfcLibraryData == old(wfcLibraryData)
    {
      var result := rt.tickN(state.value, timeoutIterations);
      state := Some(result.after);
      if result.isFinished {
        status := Finished;
        return true;
      } else {
        status := Running;
        return false;
      }
    }

    /** `GetTemperatureData`: over the unset cells only, the minimum and maximum
        (infinite when there are none), the mean (the sum over max(1, n)) and
        the median (the middle of the values kept sorted by inserting each at
        its lower bound, or 0 when there are none). */
    method GetTemperatureData() returns (outMin: Float, outMax: Float, outMean: real, outMedian: real)
      requires state.Some?
      ensures var temps := UnsetTemperatures(state.value.Grid.cells);
        && outMin == MinOf(temps) && outMax == MaxOf(temps)
        && outMean == Sum(temps) / (if |temps| > 1 then |temps| else 1) as real
        && outMedian == (if |temps| == 0 then 0.0 else InsertionSorted(temps)[|temps| / 2])
    {
      var cells := state.value.Grid.cells;
      outMin := PosInf;
      outMax := NegInf;
      var sum := 0.0;
      var sortedValues: seq<real> := [];
      for i := 0 to |cells|
        invariant outMin == MinOf(UnsetTemperatures(cells[..i]))
        invariant outMax == MaxOf(UnsetTemperatures(cells[..i]))
        invariant sum == Sum(UnsetTemperatures(cells[..i]))
        invariant sortedValues == InsertionSorted(UnsetTemperatures(cells[..i]))
      {
        UnsetTemperaturesStep(cells, i);
        if cells[i].IsSet {
          assert UnsetTemperatures(cells[..i + 1]) == UnsetTemperatures(cells[..i]);
          continue;
        }
        var t := cells[i].Temperature;
        StatisticsStep(UnsetTemperatures(cells[..i]), t);
        outMin := FloatMin(outMin, t);
        outMax := FloatMax(outMax, t);
        sum := sum + t;
        var at := LowerBound(sortedValues, t);
        InsertAtLowerBound(sortedValues, t);
        sortedValues := sortedValues[..at] + [t] + sortedValues[at..];
      }
      assert cells[..|cells|] == cells;
      var n := |sortedValues|;
      outMean := sum / (if n > 1 then n else 1) as real;
      outMedian := if n == 0 then 0.0 else sortedValues[n / 2];
    }
  }
}
