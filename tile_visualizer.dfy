/** The tile-visualizer registry of the tileset editor (WfcTileVisualizer.cpp
    under WfcEditorScenes): an append-only list of (predicate, factory) pairs,
    searched newest first. */
module TileVisualizers {
  import opened Wrappers
  import opened DataReflection
  import T = Tiles

  /** `FWfcTileVisualizerInputs`, without the editor scene, its manager, the
      tileset pointer and the tile's placement, which no predicate here reads. */
  datatype VisualizerInputs = VisualizerInputs(TileIdx: int, Permutation: WfcTransform3D, Tile: Option<T.Tile>)
  {
    /** `GetTileGameData`: the tile's data, or null when there is no tile. */
    function GetTileGameData(): (d: T.DataPtr)
      ensures Tile.None? ==> d == T.Null
      ensures Tile.Some? ==> d == Tile.value.Data
    {
      if Tile.Some? then Tile.value.Data else T.Null
    }
  }

  /** A visualizer a factory made: which kind, and for which inputs. */
  datatype Visualizer = Visualizer(kind: string, inputs: VisualizerInputs)

  /** One registered (predicate, factory) pair.  A factory returns a
      `TUniquePtr`, which may be null: here, nothing. */
  datatype Registration = Registration(
    isApplicable: VisualizerInputs -> bool,
    factory: VisualizerInputs -> Option<Visualizer>)

  /** The reference answer: the factory result of the last entry whose
      predicate accepts the inputs, or nothing when none accepts. */
  function LatestApplicable(entries: seq<Registration>, inputs: VisualizerInputs): Option<Visualizer> {
    if |entries| == 0 then Option.None
    else if entries[|entries| - 1].isApplicable(inputs) then entries[|entries| - 1].factory(inputs)
    else LatestApplicable(entries[..|entries| - 1], inputs)
  }

  /** Entry `i` is the newest entry that accepts the inputs. */
  predicate NewestAccepting(entries: seq<Registration>, inputs: VisualizerInputs, i: int) {
    && 0 <= i < |entries| && entries[i].isApplicable(inputs)
    && forall j :: i < j < |entries| ==> !entries[j].isApplicable(inputs)
  }

  /** With no accepting entry the answer is nothing. */
  lemma {:induction false} NoAcceptingEntryGivesNothing(entries: seq<Registration>, inputs: VisualizerInputs)
    requires forall i :: 0 <= i < |entries| ==> !entries[i].isApplicable(inputs)
    ensures LatestApplicable(entries, inputs).None?
  {
    if |entries| > 0 {
      var init := entries[..|entries| - 1];
      assert forall i :: 0 <= i < |init| ==> init[i] == entries[i];
      NoAcceptingEntryGivesNothing(init, inputs);
    }
  }

  /** The answer is what the newest accepting entry's factory returns. */
  lemma {:induction false} NewestAcceptingGivesAnswer(entries: seq<Registration>, inputs: VisualizerInputs, i: int)
    requires NewestAccepting(entries, inputs, i)
    ensures LatestApplicable(entries, inputs) == entries[i].factory(inputs)
  {
    var last := |entries| - 1;
    if i < last {
      var init := entries[..last];
      assert init[i] == entries[i];
      assert NewestAccepting(init, inputs, i);
      NewestAcceptingGivesAnswer(init, inputs, i);
    }
  }

  /** When entry `k` accepts, some entry at or after it is the newest one. */
  lemma {:induction false} NewestAcceptingExists(entries: seq<Registration>, inputs: VisualizerInputs, k: int)
    requires 0 <= k < |entries| && entries[k].isApplicable(inputs)
    ensures exists i :: k <= i && NewestAccepting(entries, inputs, i)
    decreases |entries| - k
  {
    if !NewestAccepting(entries, inputs, k) {
      var j :| k < j < |entries| && entries[j].isApplicable(inputs);
      NewestAcceptingExists(entries, inputs, j);
    }
  }

  /** With no accepting entry the answer is nothing; otherwise it is what the
      newest accepting entry's factory returns, so it is nothing exactly when
      no entry accepts or that factory returns null. */
  lemma LatestApplicableIsNewestMatch(entries: seq<Registration>, inputs: VisualizerInputs)
    ensures (forall i :: 0 <= i < |entries| ==> !entries[i].isApplicable(inputs))
            ==> LatestApplicable(entries, inputs).None?
    ensures forall i :: (NewestAccepting(entries, inputs, i)
                         ==> LatestApplicable(entries, inputs) == entries[i].factory(inputs))
    ensures LatestApplicable(entries, inputs).None? <==>
            (forall i :: 0 <= i < |entries| ==> !entries[i].isApplicable(inputs))
            || exists i :: NewestAccepting(entries, inputs, i) && entries[i].factory(inputs).None?
  {
    if forall i :: 0 <= i < |entries| ==> !entries[i].isApplicable(inputs) {
      NoAcceptingEntryGivesNothing(entries, inputs);
    } else {
      var k :| 0 <= k < |entries| && entries[k].isApplicable(inputs);
      NewestAcceptingExists(entries, inputs, k);
      var i :| k <= i && NewestAccepting(entries, inputs, i);
      NewestAcceptingGivesAnswer(entries, inputs, i);
    }
    forall i | NewestAccepting(entries, inputs, i)
      ensures LatestApplicable(entries, inputs) == entries[i].factory(inputs)
    {
      NewestAcceptingGivesAnswer(entries, inputs, i);
    }
  }

  /** Registering an entry that rejects the inputs does not change the answer
      for them; registering one that accepts them makes it the answer. */
  lemma RegistrationEffect(entries: seq<Registration>, r: Registration, inputs: VisualizerInputs)
    ensures !r.isApplicable(inputs) ==> LatestApplicable(entries + [r], inputs) == LatestApplicable(entries, inputs)
    ensures r.isApplicable(inputs) ==> LatestApplicable(entries + [r], inputs) == r.factory(inputs)
  {
    assert (entries + [r])[..|entries|] == entries;
  }

  /** The static-mesh visualizer's predicate: the tile has valid game data of
      the static-mesh kind. */
  predicate StaticMeshIsApplicable(inputs: VisualizerInputs)
    ensures StaticMeshIsApplicable(inputs) ==> inputs.Tile.Some? && T.IsValidData(inputs.Tile.value.Data)
  {
    var data := inputs.GetTileGameData();
    T.IsValidData(data) && data.target.kind == T.StaticMeshData
  }

  /** The static-mesh factory (`MakeViz`): always a static-mesh visualizer
      for the given inputs. */
  function StaticMeshMakeViz(inputs: VisualizerInputs): (v: Option<Visualizer>)
    ensures v.Some? && v.value.kind == STATIC_MESH_KIND && v.value.inputs == inputs
  {
    Some(Visualizer(STATIC_MESH_KIND, inputs))
  }

  /** The kind of visualizer `WfcTileVisualizer_StaticMesh` stands for. */
  const STATIC_MESH_KIND: string := "StaticMesh"

  /** The static-mesh registration, as the source file registers it. */
  const StaticMeshRegistration := Registration(StaticMeshIsApplicable, StaticMeshMakeViz)

  /** Once the static-mesh entry is the newest registration, every input with
      static-mesh data gets a static-mesh visualizer, and every other input
      gets what the older entries give. */
  lemma StaticMeshRegistrationEffect(entries: seq<Registration>, inputs: VisualizerInputs)
    ensures StaticMeshIsApplicable(inputs) ==>
      && LatestApplicable(entries + [StaticMeshRegistration], inputs).Some?
      && LatestApplicable(entries + [StaticMeshRegistration], inputs).value.kind == STATIC_MESH_KIND
    ensures !StaticMeshIsApplicable(inputs) ==>
      LatestApplicable(entries + [StaticMeshRegistration], inputs) == LatestApplicable(entries, inputs)
  {
    RegistrationEffect(entries, StaticMeshRegistration, inputs);
  }

  /** The predicate accepts exactly the inputs with a tile whose data is set,
      not being destroyed, and of the static-mesh kind. */
  lemma StaticMeshIsApplicableExactly(inputs: VisualizerInputs)
    ensures StaticMeshIsApplicable(inputs) <==>
      && inputs.Tile.Some? && inputs.Tile.value.Data.Ptr?
      && !inputs.Tile.value.Data.pendingKill && inputs.Tile.value.Data.target.kind == T.StaticMeshData
  {
  }

  /** The registry behind `RegisterVisualizer` and `MakeVisualizer`. */
  class VisualizerRegistry {
    var entries: seq<Registration>

    constructor ()
      ensures entries == []
    {
      entries := [];
    }

    /** `RegisterVisualizer`: appends one entry and keeps the others. */
    method RegisterVisualizer(isApplicable: VisualizerInputs -> bool, factory: VisualizerInputs -> Option<Visualizer>)
      modifies this
      ensures entries == old(entries) + [Registration(isApplicable, factory)]
    {
      entries := entries + [Registration(isApplicable, factory)];
    }

    /** `MakeVisualizer`: walks the entries from the newest to the oldest and
        returns what the first accepting entry's factory makes, or nothing. */
    method MakeVisualizer(inputs: VisualizerInputs) returns (v: Option<Visualizer>)
      ensures v == LatestApplicable(entries, inputs)
      ensures (forall i :: 0 <= i < |entries| ==> !entries[i].isApplicable(inputs)) ==> v.None?
      ensures forall i :: NewestAccepting(entries, inputs, i) ==> v == entries[i].factory(inputs)
    {
      var i := |entries| - 1;
      assert entries[..i + 1] == entries;
      while i >= 0
        invariant -1 <= i < |entries|
        invariant LatestApplicable(entries[..i + 1], inputs) == LatestApplicable(entries, inputs)
      {
        assert entries[..i + 1][..i] == entries[..i];
        var registration := entries[i];
        if registration.isApplicable(inputs) {
          LatestApplicableIsNewestMatch(entries, inputs);
          return registration.factory(inputs);
        }
        i := i - 1;
      }
      LatestApplicableIsNewestMatch(entries, inputs);
      return Option.None;
    }
  }
}
