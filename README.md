# WfcUnreal runtime core, modelled in Dafny

WfcUnreal is an Unreal Engine plugin. It wraps the WFC++ tile-based Wave
Function Collapse library for use in the engine. This project models the
plugin's own code: the C++ that sits between Unreal and WFC++. The WFC++
solver and its geometry are not modelled; they are parameters.

- **Reflected records** (`DataReflection`): the engine-visible copies of
  the library's enums and records.
  - The face identifiers (`FWFC_Face`) and the six-face cube (`FWFC_Cube`).
  - The cube transform (`FWFC_Transform3D`): its constructors, its
    conversion to and from the library type, equality and `ToString`.
  - The implicit transform set: `Unwrap` copies flags and fills sets in
    loops, and its equality compares the explicit sets.
- **Face prototypes** (`FacePrototypes`, `FacePointDefinitions`).
  - The header's prototype maps each corner's point symmetry to an ID
    offset.
  - The source file's prototype is built from two point-definition objects.
    Their flags are sanitised in place (`PostScriptConstruct`) and their
    names gathered in order.
- **Tiles** (`Tiles`): face lookup by direction, the display-name fallback,
  the supported-transform union in both overloads, and tile equality.
- **Tileset** (`Tilesets`): a class whose two ID-keyed maps are sequences
  of entries in iteration order. Each of the two searches returns the
  first match.
- **Generator** (`Generators`): the `UWfcGenerator` state machine.
  - The state: an `Off / Running / Finished` status, an optional solver
    state, the tileset pointer and the unwrapped library data.
  - Operations: `Start`, `Tick`, `RunToEnd`, `Stop`, `Cancel`, `SetCell`,
    `SetFace`.
  - Queries: `GetProgress`, `GetCell`, `GetTemperatureData`.
  - The solver is a grid of cells plus a record of functions (`Runtime`)
    standing for the WFC++ calls.
- **Blueprint helpers** (`BpUtils`): equality and inequality nodes, face
  lookup, the face-ID constants and the direction-to-rotator table.
- **Tile-visualizer registry** (`TileVisualizers`): an append-only list of
  (predicate, factory) pairs, searched from the newest entry down.

Notes on the model:

- Foreign WFC++ functions enter as parameters that the model does not
  interpret. `WfcLibrary.Geometry` holds the geometry and
  `Generators.Runtime` holds the solver.
- An Unreal `TMap` is a sequence of key/value entries, in the map's
  iteration order.
- Floats are reals. The infinities and not-a-number appear only where the
  code produces them: `GetProgress` on an empty grid, and the minimum and
  maximum of no temperatures.
- A few facts are assumed because the code that fixes them is not part of
  this model:
  - The point-ID enumeration of the source-file prototype is numbered in
    declaration order (null = 0, p1 = 1, p2 = 2, p3 = 3). Its declaration
    is not part of this model.
  - The library's directions are numbered MinX, MaxX, MinY, MaxY, MinZ,
    MaxZ = 0..5. Only MinX = 0 is visible.

## Model

| member | source | states |
|---|---|---|
| DataReflection.DirectionNumbering | Source/WFCpp2UnrealRuntime/Public/WfcDataReflection.h:12-23 | The reflected and library direction enums convert into each other both ways, MinX is 0, and distinct directions have distinct numbers |
| DataReflection.RotationCastRoundTrip | Source/WFCpp2UnrealRuntime/Public/WfcDataReflection.h:46-87 | The static casts between the reflected and the library rotation enums are inverse to each other in both directions |
| DataReflection.WfcFace.Unwrap | Source/WFCpp2UnrealRuntime/Public/WfcDataReflection.h:130-142 | Each of the four corner fields lands in the same-named corner slot and each edge field in the same-named edge slot |
| DataReflection.FaceUnwrapRoundTrip | Source/WFCpp2UnrealRuntime/Public/WfcDataReflection.h:130-142 | Unwrapping a face loses nothing: wrapping the result gives the face back, wrapping then unwrapping gives the identifiers back, and two faces with equal unwraps are equal |
| DataReflection.FaceEqualsIsFieldwise | Source/WFCpp2UnrealRuntime/Public/WfcDataReflection.h:143-148 | Face equality (comparing the eight-field tuples) holds exactly when the two faces are the same value |
| DataReflection.CubeEqualsIsFacewise | Source/WFCpp2UnrealRuntime/Public/WfcDataReflection.h:186-190 | Cube equality (all six faces pairwise equal) holds exactly when the two cubes are the same value |
| DataReflection.WfcTransform3D.Unwrap | Source/WFCpp2UnrealRuntime/Public/WfcDataReflection.h:229 | The library transform keeps the inversion flag and carries the cast rotation, which casts back to the original |
| DataReflection.TransformOfRotation | Source/WFCpp2UnrealRuntime/Public/WfcDataReflection.h:224-226 | The one-argument constructor gives that rotation without inversion, and for the None rotation it gives the default transform |
| DataReflection.TransformFromLib | Source/WFCpp2UnrealRuntime/Public/WfcDataReflection.h:227 | The constructor from a library transform keeps its inversion flag and carries the cast rotation, which casts back to the library's |
| DataReflection.TransformRoundTrip | Source/WFCpp2UnrealRuntime/Public/WfcDataReflection.h:225-229 | Constructing from `t.Unwrap()` gives `t` back, unwrapping a constructed transform gives the library value back, and `Unwrap` is injective |
| DataReflection.TransformEqualsIsPairwise | Source/WFCpp2UnrealRuntime/Public/WfcDataReflection.h:213-222 | Transform equality is equality of the (Rot, Invert) pair, which is value equality; the default is (None, false) |
| DataReflection.RightChop | Source/WFCpp2UnrealRuntime/Public/WfcDataReflection.h:237 | Dropping `n` leading characters leaves the suffix from `n`, or the empty string when the string is shorter |
| DataReflection.ToStringAsWritten | Source/WFCpp2UnrealRuntime/Public/WfcDataReflection.h:232-239 | As written, the 13-character chop leaves the text as the optional "Invert->" prefix, then "Rot3D::", then the rotation's name |
| DataReflection.ToStringAsWrittenKeepsQualifier | Source/WFCpp2UnrealRuntime/Public/WfcDataReflection.h:232-239 | As written, the default transform prints "Rot3D::None", not "RotNone", and no transform prints as the intended text |
| DataReflection.ToStringAsWrittenInvertPrefix | Source/WFCpp2UnrealRuntime/Public/WfcDataReflection.h:232-239 | As written, the text starts with "Invert->" exactly when the transform is inverted |
| DataReflection.ToString | Source/WFCpp2UnrealRuntime/Public/WfcDataReflection.h:232-239 | Corrected: the text is the optional "Invert->" prefix, then "Rot", then the rotation's name |
| DataReflection.RotationNameRoundTrip | Source/WFCpp2UnrealRuntime/Public/WfcDataReflection.h:46-87 | Every rotation's name reads back as that rotation |
| DataReflection.ParsePrinted | Source/WFCpp2UnrealRuntime/Public/WfcDataReflection.h:232-239 | A text of the printed shape reads back as the inversion flag and the rotation named in it |
| DataReflection.ParseOfToString | Source/WFCpp2UnrealRuntime/Public/WfcDataReflection.h:232-239 | The corrected text of a transform reads back as that transform and starts with "Invert->" exactly when it is inverted |
| DataReflection.ToStringRoundTrip | Source/WFCpp2UnrealRuntime/Public/WfcDataReflection.h:232-239 | The corrected text reads back as the transform, no two transforms print the same, and it starts with "Invert->" exactly when inverted |
| DataReflection.UnwrapAllExact | Source/WFCpp2UnrealRuntime/Public/WfcDataReflection.h:303-304 | A transform is in the reflected set exactly when its unwrap is in the unwrapped set, and the two sets have the same size |
| DataReflection.AddUnwrapped | Source/WFCpp2UnrealRuntime/Public/WfcDataReflection.h:303-304 | The loop adds exactly the unwraps of the source set to what was already there |
| DataReflection.UnwrapImplicit | Source/WFCpp2UnrealRuntime/Public/WfcDataReflection.h:298-325 | The method computes the unwrapped implicit set: it clears the initial transforms and fills them and the specific transforms in loops |
| DataReflection.ImplicitUnwrapContents | Source/WFCpp2UnrealRuntime/Public/WfcDataReflection.h:298-325 | All eleven flags are copied unchanged. The initial transforms are exactly the unwrapped initial permutations, of the same count. The specific transforms gain exactly the unwrapped specific ones. |
| DataReflection.ImplicitSetEqualsIsEquivalence | Source/WFCpp2UnrealRuntime/Public/WfcDataReflection.h:327-330 | Equality through the explicit sets is reflexive, symmetric and transitive, and sets with equal unwraps are equal |
| FacePrototypes.SymmetryValue | Source/WFCpp2UnrealRuntime/Public/WfcFacePrototype.h:10-16 | Every point symmetry's number is at most 3 |
| FacePrototypes.FacePrototype.GetPointSymmetry | Source/WFCpp2UnrealRuntime/Public/WfcFacePrototype.h:52-64 | Each corner AA, AB, BA, BB selects its same-named symmetry field |
| FacePrototypes.FacePrototype.WithPointSymmetry | Source/WFCpp2UnrealRuntime/Public/WfcFacePrototype.h:54-64 | Writing through the mutable `GetPointSymmetry` sets that corner's symmetry and leaves the other corners and the names alone |
| FacePrototypes.FacePrototype.Unwrap | Source/WFCpp2UnrealRuntime/Public/WfcFacePrototype.h:66-78 | Each corner's ID is the offset plus the value of that corner's symmetry tag, so it lies in [idOffset, idOffset + 3] |
| FacePrototypes.UnwrapIsOffsetPlusSymmetry | Source/WFCpp2UnrealRuntime/Public/WfcFacePrototype.h:52-78 | The ID of each point is the offset plus the number of that point's symmetry, so it lies in [idOffset, idOffset + 3] |
| FacePrototypes.UnwrapRecoversSymmetry | Source/WFCpp2UnrealRuntime/Public/WfcFacePrototype.h:66-78 | Each point's symmetry can be read back from its ID, and two prototypes unwrap alike exactly when their four symmetries agree |
| FacePrototypes.DefaultPrototypeCornersDistinct | Source/WFCpp2UnrealRuntime/Public/WfcFacePrototype.h:29-41 | The default prototype (a, b, c, d) unwraps to the four IDs offset..offset+3, all distinct |
| FacePointDefinitions.PointIDValue | Source/WFCpp2UnrealRuntime/Private/WfcFacePrototype.cpp:68 | A point ID's number, as added to the offset, is at most 3 |
| FacePointDefinitions.LeadingPoints | Source/WFCpp2UnrealRuntime/Private/WfcFacePrototype.cpp:4-20 | The number of gathered names is at most 3 and reaches k exactly when the first k flags are all set |
| FacePointDefinitions.SanitizeNests | Source/WFCpp2UnrealRuntime/Private/WfcFacePrototype.cpp:32-47 | After sanitising, the second flag implies the first and the third implies the second, and a flag survives only if it and all before it were set |
| FacePointDefinitions.SanitizeFixpoints | Source/WFCpp2UnrealRuntime/Private/WfcFacePrototype.cpp:32-47 | Sanitising changes nothing when all three flags are set, and sanitising twice is the same as once |
| FacePointDefinitions.SanitizedGatherCountsFlags | Source/WFCpp2UnrealRuntime/Private/WfcFacePrototype.cpp:4-47 | After sanitising, the number of gathered names equals the number of set flags, and sanitising does not change that number |
| FacePointDefinitions.FacePointDefs.GatherPoints | Source/WFCpp2UnrealRuntime/Private/WfcFacePrototype.cpp:4-20 | The output is the prefix of (name 1, name 2, name 3) that stops before the first unset flag |
| FacePointDefinitions.FacePointDefs.PointAt | Source/WFCpp2UnrealRuntime/Private/WfcFacePrototype.cpp:21-31 | AA, AB, BA and BB select the point kinds PointAA, PointAB, PointBA and PointBB |
| FacePointDefinitions.FacePointDefs.PostScriptConstruct | Source/WFCpp2UnrealRuntime/Private/WfcFacePrototype.cpp:32-47 | The flags are replaced by their sanitised form, in place, and the point assignments are kept, so PointAt answers as before |
| FacePointDefinitions.FacePointDefs.GetName | Source/WFCpp2UnrealRuntime/Private/WfcFacePrototype.cpp:48-58 | No name for the null point; for p1, p2 and p3 the matching name field |
| FacePointDefinitions.FacePrototypeDefs.Unwrap | Source/WFCpp2UnrealRuntime/Private/WfcFacePrototype.cpp:60-78 | The loop over the four face points sets every corner to offset + the corner definitions' point at it, and every edge likewise |
| Tiles.TileFaceEqualsIsPairwise | Source/WFCpp2UnrealRuntime/Public/WfcTile.h:39 | Tile-face equality (same prototype ID and orientation) is value equality |
| Tiles.GetPrototypeCorner | Source/WFCpp2UnrealRuntime/Private/WfcTile.cpp:4-9 | A corner whose vector the face's orientation leaves in place, and which the library reads back, is its own prototype corner |
| Tiles.GetPrototypeEdge | Source/WFCpp2UnrealRuntime/Private/WfcTile.cpp:10-15 | The same for edges: an edge whose vector the orientation fixes, and which reads back, is its own prototype edge |
| Tiles.InjectiveOnPoints | Source/WFCpp2UnrealRuntime/Private/WfcTile.cpp:4-15 | For one kind of face point and one 2D transform, point -> vector -> transformed vector -> point sends distinct points to distinct points, when the library's maps are coherent |
| Tiles.PrototypePointMapsArePermutations | Source/WFCpp2UnrealRuntime/Private/WfcTile.cpp:4-15 | `GetPrototypeCorner` and `GetPrototypeEdge` send distinct face points to distinct ones, so each permutes the four points. This holds whenever each face point's vector reads back as that point and each 2D transform maps the four point vectors to distinct point vectors. |
| Tiles.UnitSquareGeometryIsCoherent | Source/WFCpp2UnrealRuntime/Private/WfcTile.cpp:4-15 | The coherence conditions can be met: points on the unit square with the eight square symmetries meet them, for corners and edges |
| Tiles.PrototypePointsOfUnorientedFace | Source/WFCpp2UnrealRuntime/Private/WfcTile.cpp:4-15 | With no orientation, every corner and every edge maps to itself, when the identity transform leaves vectors alone and each point's vector reads back as that point |
| Tiles.DefaultTile | Source/WFCpp2UnrealRuntime/Public/WfcTile.h:60-94 | A default tile has weight 100, no data, no nickname, no precise permutations and the default implicit set |
| Tiles.GetDisplayName | Source/WFCpp2UnrealRuntime/Public/WfcTile.h:96-104 | The nickname override when it is not empty; otherwise the data's description when the data is valid; otherwise "[null]" |
| Tiles.DefaultTileDisplayName | Source/WFCpp2UnrealRuntime/Public/WfcTile.h:78-104 | A default tile displays as "[null]" |
| Tiles.GetFace | Source/WFCpp2UnrealRuntime/Public/WfcTile.h:106-118 | Each of the six directions selects the same-named face |
| Tiles.SetFace | Source/WFCpp2UnrealRuntime/Public/WfcTile.h:119 | Assigning through the mutable overload replaces the face that the const overload reads for that direction. The other five faces and every other field are unchanged. |
| Tiles.GetFaceSelectsSameNamedField | Source/WFCpp2UnrealRuntime/Public/WfcTile.h:106-119 | Each direction selects its same-named face. Writing through the mutable overload changes that face and no other, and writing back what was read changes nothing. |
| Tiles.GetSupportedTransforms | Source/WFCpp2UnrealRuntime/Private/WfcTile.cpp:17-23 | The set is the implicit set's explicit form plus the unwrapped precise permutations: it contains both and nothing else |
| Tiles.GetSupportedTransformsInto | Source/WFCpp2UnrealRuntime/Private/WfcTile.cpp:24-30 | The output holds exactly the transforms whose unwrap is supported, whatever the output held before |
| Tiles.PermutationsEqualIsEquality | Source/WFCpp2UnrealRuntime/Public/WfcTile.h:132-136 | Element-wise comparison of the precise-permutation arrays is sequence equality |
| Tiles.TileEquals | Source/WFCpp2UnrealRuntime/Public/WfcTile.h:124-135 | A tile equals itself, and equal tiles have the same face in every direction |
| Tiles.TileEqualsIsEquivalence | Source/WFCpp2UnrealRuntime/Public/WfcTile.h:125-136 | Tile equality is an equivalence that ignores the nickname override, and equal tiles support the same transforms |
| Tilesets.LookupDefinedIffKey | Source/WFCpp2UnrealRuntime/Public/WfcTileset.h:20-26 | A map lookup succeeds exactly for the keys present, and yields the value of an entry with that key |
| Tilesets.Tileset.GetTileIDForData | Source/WFCpp2UnrealRuntime/Private/WfcTileset.cpp:4-18 | Found exactly when some tile holds the data; the ID is then the key of the first such tile in iteration order, and otherwise 0 |
| Tilesets.Tileset.GetTileIDForDataOptional | Source/WFCpp2UnrealRuntime/Private/WfcTileset.cpp:19-28 | Some ID exactly when some tile holds the data, and then the key of the first such tile |
| Tilesets.NicknamesMatchIsCaseInsensitiveEquality | Source/WFCpp2UnrealRuntime/Private/WfcTileset.cpp:33 | Nicknames match exactly when their lowered forms are equal. Matching is an equivalence, and it ignores letter case ("Wall" matches "wall") but no other difference. |
| Tilesets.Tileset.GetFacePrototype | Source/WFCpp2UnrealRuntime/Private/WfcTileset.cpp:30-42 | Found exactly when some prototype's nickname matches, ignoring case as `FString`'s `==` does. The ID is then the first such key in iteration order, and otherwise 0. |
| Tilesets.Tileset.GetFacePrototypeOptional | Source/WFCpp2UnrealRuntime/Private/WfcTileset.cpp:43-52 | Some ID exactly when some prototype's nickname matches, ignoring case, and then the first such key |
| Generators.IndexInBounds | Source/WFCpp2UnrealRuntime/Private/WfcGenerator.cpp:74 | A position inside the grid's dimensions has a flat index inside the cell array |
| Generators.DefaultCellReports | Source/WFCpp2UnrealRuntime/Public/WfcGenerator.h:17-60 | Default reports: tile ID -1, no data, identity permutation; 0 possibilities; temperature 0 and not set |
| Generators.CountSetBounds | Source/WFCpp2UnrealRuntime/Private/WfcGenerator.cpp:16-19 | The set-cell count is at most the number of cells. It equals that number exactly when every cell is set, and is 0 exactly when none is. |
| Generators.ShareBounds | Source/WFCpp2UnrealRuntime/Private/WfcGenerator.cpp:21-22 | A count over a positive total is in [0, 1], and is 1 exactly when the count is the total |
| Generators.MinMaxAreExtremes | Source/WFCpp2UnrealRuntime/Private/WfcGenerator.cpp:125-137 | With no values the minimum is +infinity and the maximum -infinity; otherwise both are finite, occur among the values, and bound every value |
| Generators.SumBetween | Source/WFCpp2UnrealRuntime/Private/WfcGenerator.cpp:127-139 | A sum of n values between lo and hi lies between n·lo and n·hi |
| Generators.MeanBetweenExtremes | Source/WFCpp2UnrealRuntime/Private/WfcGenerator.cpp:136-143 | For a non-empty list, the mean lies between the minimum and the maximum |
| Generators.UnsetTemperaturesStep | Source/WFCpp2UnrealRuntime/Private/WfcGenerator.cpp:130-134 | One more cell adds its temperature to the list when it is unset and nothing when it is set |
| Generators.StatisticsStep | Source/WFCpp2UnrealRuntime/Private/WfcGenerator.cpp:134-140 | One more value updates the minimum and maximum by FMath::Min/Max, adds to the sum and is inserted into the sorted list |
| Generators.LowerBound | Source/WFCpp2UnrealRuntime/Private/WfcGenerator.cpp:140 | The lower bound is the first index whose value is not below t: everything before it is smaller |
| Generators.InsertAtLowerBound | Source/WFCpp2UnrealRuntime/Private/WfcGenerator.cpp:140 | Inserting at the lower bound is the sorted insert |
| Generators.InsertSortedAddsValue | Source/WFCpp2UnrealRuntime/Private/WfcGenerator.cpp:140 | The insert adds exactly one copy of the value |
| Generators.InsertSortedKeepsOrder | Source/WFCpp2UnrealRuntime/Private/WfcGenerator.cpp:140 | Inserting at the lower bound keeps a sorted list sorted |
| Generators.InsertionSortedIsSortedPermutation | Source/WFCpp2UnrealRuntime/Private/WfcGenerator.cpp:128-140 | The list built by repeated lower-bound inserts is sorted and a permutation of the values |
| Generators.SetFaceGuardAsWrittenMisreadsIDs | Source/WFCpp2UnrealRuntime/Private/WfcGenerator.cpp:98-104 | As written, with one prototype stored under ID 1, the check rejects ID 1 and lets through ID 0, whose lookup fails |
| Generators.SetFaceGuardMeansLookupDefined | Source/WFCpp2UnrealRuntime/Private/WfcGenerator.cpp:98-104 | The corrected check passes exactly when the prototype lookup succeeds |
| Generators.SetFaceGuardRejectsNullID | Source/WFCpp2UnrealRuntime/Public/WfcFacePrototype.h:82-83 | The null ID names no prototype. In a tileset whose prototype IDs start at the first valid ID, the corrected check rejects the null ID and its lookup finds nothing. |
| Generators.Generator.constructor | Source/WFCpp2UnrealRuntime/Public/WfcGenerator.h:152-158 | A new generator is off, with no solver and no tileset |
| Generators.Generator.GetStatus | Source/WFCpp2UnrealRuntime/Public/WfcGenerator.h:73 | The current status |
| Generators.Generator.IsRunning | Source/WFCpp2UnrealRuntime/Public/WfcGenerator.h:76 | True exactly when the status is Running, so false exactly when it is Off or Finished |
| Generators.Generator.GetNTilePossibilities | Source/WFCpp2UnrealRuntime/Private/WfcGenerator.cpp:111-114 | The solver's count of permuted tiles, or 0 without a solver |
| Generators.Generator.GetTickCount | Source/WFCpp2UnrealRuntime/Public/WfcGenerator.h:100 | The solver's timestamp cast to a 32-bit `int`: in [-2^31, 2^31), equal to the timestamp modulo 2^32, and the timestamp itself when it fits |
| Generators.Generator.GetProgress | Source/WFCpp2UnrealRuntime/Private/WfcGenerator.cpp:5-27 | 1 when finished and 0 when off. While running, it is the share of set cells: in [0, 1], and 1 exactly when every cell is set. An empty grid gives not-a-number. |
| Generators.Generator.GetCell | Source/WFCpp2UnrealRuntime/Private/WfcGenerator.cpp:29-66 | Out of range: temperature -1, not set, default parts. In range, the report mirrors the cell. A set cell gives its tileset ID, its permutation (which unwraps to the chosen one) and the data of the tile the map lookup finds under that ID. An unset cell gives its number of possibilities. |
| Generators.Generator.SetCell | Source/WFCpp2UnrealRuntime/Private/WfcGenerator.cpp:67-83 | Nothing changes without a solver or out of range; otherwise the solver gets the cell with the translated tile ID and unwrapped permutation |
| Generators.Generator.SetFace | Source/WFCpp2UnrealRuntime/Private/WfcGenerator.cpp:85-109 | Nothing changes without a solver, out of range, or for an ID that is not a prototype key. Otherwise the solver gets that prototype's IDs, unwrapped at its first ID. |
| Generators.Generator.Stop | Source/WFCpp2UnrealRuntime/Private/WfcGenerator.cpp:117-120 | The status becomes Finished and the solver is kept, so the tile-possibility count is unchanged |
| Generators.Generator.Cancel | Source/WFCpp2UnrealRuntime/Private/WfcGenerator.cpp:176-180 | The status becomes Off and the solver is dropped, whatever the previous state, so a second cancel changes nothing |
| Generators.Generator.Start | Source/WFCpp2UnrealRuntime/Private/WfcGenerator.cpp:147-175 | An unusable tileset never leaves the generator running: a running one ends off, any other keeps its state. A usable one leaves it running, on a new solver with the three given settings. |
| Generators.Generator.Tick | Source/WFCpp2UnrealRuntime/Private/WfcGenerator.cpp:182-192 | Requires a running generator; afterwards it is finished exactly when the solver's step says so, and running otherwise |
| Generators.Generator.RunToEnd | Source/WFCpp2UnrealRuntime/Private/WfcGenerator.cpp:194-207 | Returns the solver's answer after up to the given number of steps; the status is finished exactly when that answer is true |
| Generators.Generator.GetTemperatureData | Source/WFCpp2UnrealRuntime/Private/WfcGenerator.cpp:122-145 | Over the unset cells only: min and max are the extremes, mean is sum / max(1, n), median is the middle of the sorted values, or 0 when there are none |
| BpUtils.FaceEquals | Source/WFCpp2UnrealRuntime/Public/WfcBpUtils.h:17-18 | True exactly when the two faces are equal |
| BpUtils.FaceNotEquals | Source/WFCpp2UnrealRuntime/Public/WfcBpUtils.h:19-20 | The negation of FaceEquals, so true exactly when the faces differ |
| BpUtils.CubeEquals | Source/WFCpp2UnrealRuntime/Public/WfcBpUtils.h:22-23 | True exactly when the two cubes are equal |
| BpUtils.CubeNotEquals | Source/WFCpp2UnrealRuntime/Public/WfcBpUtils.h:24-25 | The negation of CubeEquals, so true exactly when the cubes differ |
| BpUtils.TransfEquals | Source/WFCpp2UnrealRuntime/Public/WfcBpUtils.h:27-28 | True exactly when the transforms are equal, which is exactly when their library forms are equal |
| BpUtils.TransfNotEquals | Source/WFCpp2UnrealRuntime/Public/WfcBpUtils.h:29-30 | The negation of TransfEquals, so true exactly when the transforms differ |
| BpUtils.GetFace | Source/WFCpp2UnrealRuntime/Public/WfcBpUtils.h:32-33 | Each reflected direction selects the tile's same-named face |
| BpUtils.FaceIDInvalid | Source/WFCpp2UnrealRuntime/Public/WfcBpUtils.h:47-49 | The null face ID, 0 |
| BpUtils.FaceIDFirstValid | Source/WFCpp2UnrealRuntime/Public/WfcBpUtils.h:50-52 | The first valid face ID, 1, which is above the null ID |
| BpUtils.WfcToFRotator | Source/WFCpp2UnrealRuntime/Private/WfcBpUtils.cpp:3-15 | No entry rolls, every yaw lies in [0, 360), and only the two Z faces pitch, by a quarter turn |
| BpUtils.WfcToFRotatorTable | Source/WFCpp2UnrealRuntime/Private/WfcBpUtils.cpp:3-15 | Six distinct rotators with no roll. +X needs none. The X and Y faces only turn in yaw, opposite faces 180 degrees apart. The Z faces only pitch, -90 and +90. |
| TileVisualizers.VisualizerInputs.GetTileGameData | Source/WFCpp2UnrealEditor/Public/WfcEditorScenes/WfcTileVisualizer.h:19 | The tile's data, or null without a tile |
| TileVisualizers.LatestApplicableIsNewestMatch | Source/WFCpp2UnrealEditor/Private/WfcEditorScenes/WfcTileVisualizer.cpp:28-39 | With no accepting entry the answer is nothing. Otherwise it is what the newest accepting entry's factory returns, so it is nothing exactly when no entry accepts or that factory returns null. |
| TileVisualizers.RegistrationEffect | Source/WFCpp2UnrealEditor/Private/WfcEditorScenes/WfcTileVisualizer.cpp:22-39 | Registering an entry that rejects the inputs leaves the answer for them unchanged; one that accepts them becomes the answer |
| TileVisualizers.StaticMeshIsApplicable | Source/WFCpp2UnrealEditor/Private/WfcEditorScenes/WfcTileVisualizer.cpp:44-48 | Accepting needs a tile whose data is valid |
| TileVisualizers.StaticMeshIsApplicableExactly | Source/WFCpp2UnrealEditor/Private/WfcEditorScenes/WfcTileVisualizer.cpp:44-48 | The static-mesh predicate holds exactly for a tile with data that is set, not being destroyed, and of the static-mesh kind |
| TileVisualizers.StaticMeshMakeViz | Source/WFCpp2UnrealEditor/Private/WfcEditorScenes/WfcTileVisualizer.cpp:49-52 | The static-mesh factory always returns a static-mesh visualizer for the given inputs, never null |
| TileVisualizers.StaticMeshRegistrationEffect | Source/WFCpp2UnrealEditor/Private/WfcEditorScenes/WfcTileVisualizer.cpp:44-54 | Once the static-mesh entry is the newest, inputs with static-mesh data get a static-mesh visualizer, and other inputs get what the older entries give |
| TileVisualizers.VisualizerRegistry.RegisterVisualizer | Source/WFCpp2UnrealEditor/Private/WfcEditorScenes/WfcTileVisualizer.cpp:22-27 | Appends exactly one entry and keeps the others |
| TileVisualizers.VisualizerRegistry.MakeVisualizer | Source/WFCpp2UnrealEditor/Private/WfcEditorScenes/WfcTileVisualizer.cpp:28-39 | The downward loop returns the newest accepting entry's factory result, which may be null, and null when no entry accepts. The registry is not changed. |

## Left out

- The WFC++ solver is not part of this model. That covers `StandardRunner` and its `Tick`, `TickN`, `SetCell`, `SetFaceConstraint` and `GetTemperature`, propagation and unwinding. `Generators.Runtime` stands for these calls and the model assumes nothing about them. A cell's temperature is a field of the cell.
- The WFC++ geometry is not part of this model. That covers `GetExplicit`, the face-vector maps, `FaceVector::Transform` and `Transform3D::Then`. `WfcLibrary.Geometry` takes them as functions with no group laws. Lemmas that need a property of them state it in their `requires`.
- `UWfcTileset::Unwrap` is not part of this model. `Generators.Generator.Start` takes its result as the parameter `unwrapped`.
- The periodic flags of `Start` are accepted and not used, as in the code.
- `WfcToFTransform`, `FWFC_Transform3D::ToFTransform` and `CombineWfcTransforms`: engine transforms and `Then` are foreign.
- The `FCriticalSection` lock around the visualizer registry is left out (concurrency). The global array is one registry object.
- Editor UI, preview scenes, visualizer classes and their rendering, module start-up and build files: none has stateable behaviour beyond drawing and engine lifetime.
- The `GetTypeHash` overloads delegate to Unreal's hash combinators.
- Game-data asset classes are reduced to a kind and a description. The tileset's edit delegates and `TileLength` are engine reflection.
- Float rounding: temperatures, progress and the mean are reals. The `nanf` default branch of `GetProgress` cannot be reached with three states.
- `GetProgress` and `GetTemperatureData` visit cells in flat array order, not the library's region order. The results do not depend on that order: a count, extremes, a sum and a sorted list.
- `Algo::LowerBound`'s binary search is modelled by a function stating its result, the first index whose value is not below the key.
- `Generators.Generator.GetCell`: these crash paths are preconditions here, not modelled paths:
  - the engine's `checkf`/`verify` on an off generator;
  - a `TMap` index of a missing key;
  - a null `tileset` dereferenced for a set cell. That state is reachable: `Start` with an unusable tileset while finished nulls the pointer and keeps the run.
  - a chosen-tile index outside `WfcTileIDs`.
- `Generators.Generator.GetCell`, `SetCell`, `SetFace` and `Start` report each rejected call with `UE_LOG(LogWFCpp, Error, …)`. The log is not modelled; only the state each of those paths leaves is.
- `Generators.Generator.SetCell`: a `TMap` index of a missing key is likewise a precondition.
- `Tilesets.NicknamesMatch` folds the case of ASCII letters only. How the engine folds other characters is not part of this model.
- `Generators.Generator.SetFace`: a null tileset pointer is likewise a precondition.
- `Generators.Generator.SetFace`: a `TMap` index of a missing key in the first-ID map `WfcFacePrototypeFirstIDs` is likewise a precondition. That map is filled by the tileset's `Unwrap`, which is not part of this model.
- `Generators.Generator.Tick`: `checkf`/`check` on a non-running generator is likewise a precondition.
- `Generators.Generator.RunToEnd`: `GetValue` on an empty solver is likewise a precondition.
- `Generators.Generator.GetTemperatureData`: the code dereferences `state` without a check; the solver is a precondition.
- `Generators.Generator.GetTickCount`: the code dereferences `state` without a check; the solver is a precondition. The cast to `int` is modelled as a conversion modulo 2^32. The timestamp's own type is in WFC++ and is not part of this model.
- `Generators.Generator.Stop` sets Finished even on a generator that is off and has no solver. `GetCell` then fails its solver check. The model keeps this as written.
- `Generators.Generator.Start` with an unusable tileset while finished keeps the old run but replaces the tileset pointer. The model keeps this as written.
- The header and source-file shapes of the face prototype disagree: point symmetries against corner/edge point definitions. Each is modelled as written. The header shape is the one stored in the tileset and used by `SetFace`.
- The declaration of `FWfcFacePointDefs` and `EWfcPointID` is not part of this model. The field names and the enumeration order follow the source file.
- `Generators.Generator.SetFace` follows the corrected prototype check (see Findings). The requested face orientation is accepted and not used, as in the code.

## Findings

| source | as written | input that shows it | evidently intended | confidence | as-written member | corrected member |
|---|---|---|---|---|---|---|
| Source/WFCpp2UnrealRuntime/Public/WfcDataReflection.h:237 | `RightChop(13)` on the enum value string "WFC_Rotations3D::X", meant to remove the qualifier, removes only "WFC_Rotations" | the default transform (None, not inverted) prints "Rot3D::None" | drop the whole 17-character qualifier, printing "RotNone", so the text names the rotation and reads back as the transform | medium, not executed (the string form of the enum value depends on the engine) | DataReflection.ToStringAsWrittenKeepsQualifier | DataReflection.ToStringRoundTrip |
| Source/WFCpp2UnrealRuntime/Private/WfcGenerator.cpp:98 | the face-prototype ID is checked as a position in [0, Num()) of `FacePrototypes`, but that map is keyed by ID, the null ID is 0 and valid IDs start at 1 | a tileset whose only prototype has ID 1: `SetFace` with ID 1 is rejected, and with ID 0 it passes the check and then indexes a missing key | check that the ID is a key of the map (`Contains`), so the lookup that follows is defined | high, not executed | Generators.SetFaceGuardAsWrittenMisreadsIDs | Generators.SetFaceGuardMeansLookupDefined |
