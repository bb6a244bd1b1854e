/** The tileset asset (WfcTileset.h, WfcTileset.cpp): face prototypes and
    tiles, each in a map keyed by an integer ID, and the two searches over them. */
module Tilesets {
  import opened Wrappers
  import T = Tiles
  import FP = FacePrototypes

  /** One key/value pair of a `TMap`.  A map is a sequence of entries, in the
      map's iteration order. */
  datatype Entry<V> = Entry(key: int, value: V)

  /** Whether some entry has key `k` (`TMap::Contains`). */
  predicate HasKey<V>(m: seq<Entry<V>>, k: int) {
    exists i :: 0 <= i < |m| && m[i].key == k
  }

  /** The value stored under `k` (`TMap::Find`), or nothing. */
  function Lookup<V>(m: seq<Entry<V>>, k: int): Option<V> {
    if |m| == 0 then None
    else if m[0].key == k then Some(m[0].value)
    else Lookup(m[1..], k)
  }

  /** A lookup succeeds exactly for the keys the map holds, and then yields
      the value of an entry with that key. */
  lemma {:induction false} LookupDefinedIffKey<V>(m: seq<Entry<V>>, k: int)
    ensures Lookup(m, k).Some? <==> HasKey(m, k)
    ensures Lookup(m, k).Some? ==> exists i :: 0 <= i < |m| && m[i] == Entry(k, Lookup(m, k).value)
  {
    if |m| == 0 {
    } else if m[0].key == k {
      assert m[0] == Entry(k, Lookup(m, k).value);
    } else {
      LookupDefinedIffKey(m[1..], k);
      if HasKey(m, k) {
        var i :| 0 <= i < |m| && m[i].key == k;
        assert m[1..][i - 1].key == k;
      }
      if Lookup(m, k).Some? {
        var i :| 0 <= i < |m[1..]| && m[1..][i] == Entry(k, Lookup(m, k).value);
        assert m[i + 1] == Entry(k, Lookup(m, k).value);
      }
    }
  }

  /** `TChar::ToLower` on one character: an ASCII capital becomes the small
      letter, any other character is kept. */
  function ToLowerChar(c: char): char {
    if 'A' <= c <= 'Z' then (c as int + 32) as char else c
  }

  /** `FString::operator==`, which ignores case: the same length, and the same
      characters once each is lowered. */
  predicate NicknamesMatch(a: string, b: string) {
    |a| == |b| && forall i :: 0 <= i < |a| ==> ToLowerChar(a[i]) == ToLowerChar(b[i])
  }

  /** The string lowered character by character. */
  function ToLower(s: string): (r: string)
    ensures |r| == |s| && forall i :: 0 <= i < |s| ==> r[i] == ToLowerChar(s[i])
  {
    if |s| == 0 then "" else [ToLowerChar(s[0])] + ToLower(s[1..])
  }

  /** Nicknames match exactly when their lowered forms are equal, so matching
      is an equivalence that equal strings satisfy; it ignores the case of
      letters ("Wall" matches "wall") but not other differences. */
  lemma NicknamesMatchIsCaseInsensitiveEquality(a: string, b: string, c: string)
    ensures NicknamesMatch(a, b) <==> ToLower(a) == ToLower(b)
    ensures NicknamesMatch(a, a)
    ensures NicknamesMatch(a, b) ==> NicknamesMatch(b, a)
    ensures NicknamesMatch(a, b) && NicknamesMatch(b, c) ==> NicknamesMatch(a, c)
    ensures NicknamesMatch("Wall", "wall")
    ensures !NicknamesMatch("Wall", "Wal") && !NicknamesMatch("Wall", "Wale")
  {
    if ToLower(a) == ToLower(b) {
      assert forall i :: 0 <= i < |a| ==> ToLower(a)[i] == ToLower(b)[i];
    }
    assert !NicknamesMatch("Wall", "Wale") by {
      assert ToLowerChar("Wall"[3]) != ToLowerChar("Wale"[3]);
    }
  }

  /** `UWfcTileset`. */
  class Tileset {
    var FacePrototypes: seq<Entry<FP.FacePrototype>>
    var Tiles: seq<Entry<T.Tile>>
    /** Whether the engine has marked this object for destruction (`IsValid`). */
    var PendingKill: bool

    constructor (facePrototypes: seq<Entry<FP.FacePrototype>>, tiles: seq<Entry<T.Tile>>)
      ensures FacePrototypes == facePrototypes && Tiles == tiles && !PendingKill
    {
      FacePrototypes := facePrototypes;
      Tiles := tiles;
      PendingKill := false;
    }

    /** `GetTileIDForData(targetData, foundTile)`: the key of the first tile,
        in iteration order, whose data is `targetData`; 0 when there is none. */
    method GetTileIDForData(targetData: T.DataPtr) returns (id: int, foundTile: bool)
      ensures foundTile <==> exists i :: 0 <= i < |Tiles| && Tiles[i].value.Data == targetData
      ensures foundTile ==> exists i :: 0 <= i < |Tiles| && Tiles[i].key == id && Tiles[i].value.Data == targetData
                              && forall j :: 0 <= j < i ==> Tiles[j].value.Data != targetData
      ensures !foundTile ==> id == 0
    {
      for i := 0 to |Tiles|
        invariant forall j :: 0 <= j < i ==> Tiles[j].value.Data != targetData
      {
        if Tiles[i].value.Data == targetData {
          return Tiles[i].key, true;
        }
      }
      return 0, false;
    }

    /** The `TOptional` overload of `GetTileIDForData`: some ID exactly when the
        bool overload finds one, and then the same ID. */
    method GetTileIDForDataOptional(targetData: T.DataPtr) returns (r: Option<int>)
      ensures r.Some? <==> exists i :: 0 <= i < |Tiles| && Tiles[i].value.Data == targetData
      ensures r.Some? ==> exists i :: 0 <= i < |Tiles| && Tiles[i].key == r.value && Tiles[i].value.Data == targetData
                            && forall j :: 0 <= j < i ==> Tiles[j].value.Data != targetData
    {
      var id, found := GetTileIDForData(targetData);
      if found {
        r := Some(id);
      } else {
        r := None;
      }
    }

    /** `GetFacePrototype(nickname, foundFace)`: the key of the first prototype,
        in iteration order, whose nickname matches, ignoring case; 0 when there is
        none. */
    method GetFacePrototype(nickname: string) returns (id: int, foundFace: bool)
      ensures foundFace <==> exists i :: 0 <= i < |FacePrototypes| && NicknamesMatch(FacePrototypes[i].value.Nickname, nickname)
      ensures foundFace ==> exists i :: 0 <= i < |FacePrototypes| && FacePrototypes[i].key == id
                              && NicknamesMatch(FacePrototypes[i].value.Nickname, nickname)
                              && forall j :: 0 <= j < i ==> !NicknamesMatch(FacePrototypes[j].value.Nickname, nickname)
      ensures !foundFace ==> id == 0
    {
      for i := 0 to |FacePrototypes|
        invariant forall j :: 0 <= j < i ==> !NicknamesMatch(FacePrototypes[j].value.Nickname, nickname)
      {
        if NicknamesMatch(FacePrototypes[i].value.Nickname, nickname) {
          return FacePrototypes[i].key, true;
        }
      }
      return 0, false;
    }

    /** The `TOptional` overload of `GetFacePrototype`. */
    method GetFacePrototypeOptional(nickname: string) returns (r: Option<int>)
      ensures r.Some? <==> exists i :: 0 <= i < |FacePrototypes| && NicknamesMatch(FacePrototypes[i].value.Nickname, nickname)
      ensures r.Some? ==> exists i :: 0 <= i < |FacePrototypes| && FacePrototypes[i].key == r.value
                            && NicknamesMatch(FacePrototypes[i].value.Nickname, nickname)
                            && forall j :: 0 <= j < i ==> !NicknamesMatch(FacePrototypes[j].value.Nickname, nickname)
    {
      var id, found := GetFacePrototype(nickname);
      r := if found then Some(id) else None;
    }
  }
}
