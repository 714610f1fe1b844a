/** Helpers for entity documents: an entity's position is the list of three
    doubles under "Pos"; a tile entity's is the three ints "x", "y", "z". */
module Entities {
  import opened Bytes
  import opened Wrappers
  import opened TagTypes
  import opened Tags
  import opened Compounds

  const PosKey: Name := [0x50, 0x6F, 0x73] // "Pos"
  const XKey: Name := [0x78] // "x"
  const YKey: Name := [0x79] // "y"
  const ZKey: Name := [0x7A] // "z"

  // ---------------------------------------------------------------------
  // Entities

  /** The items of the "Pos" list: absent is an absent-value error, another
      variant fails the `(TagList)` cast. */
  function PosItems(es: Entries): (r: Result<seq<Tag>>)
    ensures PosKey !in Keys(es) ==> r == Err(AbsentValue(PosKey))
    ensures r.Ok? <==> Lookup(es, PosKey).Some? && Lookup(es, PosKey).value.TagList?
    ensures r.Ok? ==> Lookup(es, PosKey) == Some(TagList(r.value))
  {
    var t :- GetTag(es, PosKey);
    if t.TagList? then Ok(t.items) else Err(TypeMismatch)
  }

  /** `((TagList) getTag("Pos")).getTags().get(i).getDouble()`: the bit
      pattern of coordinate `i`. */
  function GetEntityCoord(es: Entries, i: nat): (r: Result<uint64>)
    ensures r.Ok? <==>
      PosItems(es).Ok? && i < |PosItems(es).value| && PosItems(es).value[i].TagDouble?
    ensures r.Ok? ==> PosItems(es).value[i] == TagDouble(r.value)
    ensures PosItems(es).Ok? && |PosItems(es).value| <= i ==> r == Err(IndexOutOfBounds(i))
  {
    var items :- PosItems(es);
    if i < |items| then Tags.GetDouble(items[i]) else Err(IndexOutOfBounds(i))
  }

  /** `getEntityX`, `getEntityY`, `getEntityZ`. */
  function GetEntityX(es: Entries): Result<uint64> { GetEntityCoord(es, 0) }
  function GetEntityY(es: Entries): Result<uint64> { GetEntityCoord(es, 1) }
  function GetEntityZ(es: Entries): Result<uint64> { GetEntityCoord(es, 2) }

  /** `((TagDouble) ((TagList) getTag("Pos")).getTags().get(i)).setValue(v)`:
      element `i` of "Pos" must already be a double, and only it changes. */
  function SetEntityCoord(es: Entries, i: nat, v: uint64): (r: Result<Entries>)
    ensures r.Ok? <==> GetEntityCoord(es, i).Ok?
    ensures r.Err? ==> r.error == GetEntityCoord(es, i).error
  {
    var items :- PosItems(es);
    if i >= |items| then Err(IndexOutOfBounds(i))
    else if !items[i].TagDouble? then Err(TypeMismatch)
    else Ok(Put(es, PosKey, TagList(items[i := TagDouble(v)])))
  }

  /** Setting coordinate `i` makes it read back as the new value; the other
      coordinates, the length of "Pos" and every other key are as before. */
  lemma SetEntityCoordGet(es: Entries, i: nat, j: nat, v: uint64)
    requires SetEntityCoord(es, i, v).Ok?
    ensures var r := SetEntityCoord(es, i, v).value;
      GetEntityCoord(r, i) == Ok(v) &&
      (j != i ==> GetEntityCoord(r, j) == GetEntityCoord(es, j)) &&
      |PosItems(r).value| == |PosItems(es).value| &&
      forall m | m != PosKey :: Lookup(r, m) == Lookup(es, m)
  {
  }

  /** `setEntityX` and, as written, `setEntityY` and `setEntityZ`: all three
      write element 0 of "Pos". */
  function SetEntityX(es: Entries, x: uint64): Result<Entries> { SetEntityCoord(es, 0, x) }
  function SetEntityYAsWritten(es: Entries, y: uint64): Result<Entries> { SetEntityCoord(es, 0, y) }
  function SetEntityZAsWritten(es: Entries, z: uint64): Result<Entries> { SetEntityCoord(es, 0, z) }

  /** As written, setting Y leaves Y as it was and overwrites X instead. */
  lemma SetEntityYAsWrittenMisses(es: Entries, y: uint64)
    requires SetEntityYAsWritten(es, y).Ok?
    ensures var r := SetEntityYAsWritten(es, y).value;
      GetEntityY(r) == GetEntityY(es) && GetEntityX(r) == Ok(y)
  {
    SetEntityCoordGet(es, 0, 1, y);
  }

  /** As written, setting Z leaves Z as it was and overwrites X instead. */
  lemma SetEntityZAsWrittenMisses(es: Entries, z: uint64)
    requires SetEntityZAsWritten(es, z).Ok?
    ensures var r := SetEntityZAsWritten(es, z).value;
      GetEntityZ(r) == GetEntityZ(es) && GetEntityX(r) == Ok(z)
  {
    SetEntityCoordGet(es, 0, 2, z);
  }

  /** An entity at (1.0, 2.0, 3.0) moved to y = 5.0 by the setter as written
      ends up at (5.0, 2.0, 3.0). */
  lemma SetEntityYAsWrittenExample()
    ensures var es := [NamedTag(PosKey, TagList([TagDouble(OneBits), TagDouble(TwoBits), TagDouble(ThreeBits)]))];
      SetEntityYAsWritten(es, FiveBits) ==
        Ok([NamedTag(PosKey, TagList([TagDouble(FiveBits), TagDouble(TwoBits), TagDouble(ThreeBits)]))])
  {
    var es := [NamedTag(PosKey, TagList([TagDouble(OneBits), TagDouble(TwoBits), TagDouble(ThreeBits)]))];
    var items := [TagDouble(OneBits), TagDouble(TwoBits), TagDouble(ThreeBits)];
    assert es[1..] == [];
    assert Lookup(es, PosKey) == Some(TagList(items));
    assert PosItems(es) == Ok(items);
    assert Put(es, PosKey, TagList(items[0 := TagDouble(FiveBits)])) ==
      [NamedTag(PosKey, TagList(items[0 := TagDouble(FiveBits)]))];
    assert items[0 := TagDouble(FiveBits)] == [TagDouble(FiveBits), TagDouble(TwoBits), TagDouble(ThreeBits)];
    assert SetEntityCoord(es, 0, FiveBits) == Ok(Put(es, PosKey, TagList(items[0 := TagDouble(FiveBits)])));
  }

  /** The IEEE 754 bit patterns of 1.0, 2.0, 3.0 and 5.0. */
  const OneBits: uint64 := 0x3FF0_0000_0000_0000
  const TwoBits: uint64 := 0x4000_0000_0000_0000
  const ThreeBits: uint64 := 0x4008_0000_0000_0000
  const FiveBits: uint64 := 0x4014_0000_0000_0000

  /** The setters as their names and getters promise: Y writes element 1, Z
      element 2. */
  function SetEntityY(es: Entries, y: uint64): Result<Entries> { SetEntityCoord(es, 1, y) }
  function SetEntityZ(es: Entries, z: uint64): Result<Entries> { SetEntityCoord(es, 2, z) }

  /** With the corrected setters every coordinate reads back as set, and the
      other two are untouched. */
  lemma EntitySettersGet(es: Entries, v: uint64)
    ensures SetEntityX(es, v).Ok? ==>
      GetEntityX(SetEntityX(es, v).value) == Ok(v) &&
      GetEntityY(SetEntityX(es, v).value) == GetEntityY(es) &&
      GetEntityZ(SetEntityX(es, v).value) == GetEntityZ(es)
    ensures SetEntityY(es, v).Ok? ==>
      GetEntityY(SetEntityY(es, v).value) == Ok(v) &&
      GetEntityX(SetEntityY(es, v).value) == GetEntityX(es) &&
      GetEntityZ(SetEntityY(es, v).value) == GetEntityZ(es)
    ensures SetEntityZ(es, v).Ok? ==>
      GetEntityZ(SetEntityZ(es, v).value) == Ok(v) &&
      GetEntityX(SetEntityZ(es, v).value) == GetEntityX(es) &&
      GetEntityY(SetEntityZ(es, v).value) == GetEntityY(es)
  {
    if SetEntityX(es, v).Ok? {
      SetEntityCoordGet(es, 0, 1, v);
      SetEntityCoordGet(es, 0, 2, v);
    }
    if SetEntityY(es, v).Ok? {
      SetEntityCoordGet(es, 1, 0, v);
      SetEntityCoordGet(es, 1, 2, v);
    }
    if SetEntityZ(es, v).Ok? {
      SetEntityCoordGet(es, 2, 0, v);
      SetEntityCoordGet(es, 2, 1, v);
    }
  }

  // ---------------------------------------------------------------------
  // Tile entities

  /** `getInt(key)`: the int under one of "x", "y", "z". */
  function GetTileCoord(es: Entries, key: Name): (r: Result<int32>)
    ensures key !in Keys(es) ==> r == Err(AbsentValue(key))
    ensures r.Ok? <==> Lookup(es, key).Some? && Lookup(es, key).value.TagInt?
    ensures r.Ok? ==> Lookup(es, key) == Some(TagInt(r.value))
    ensures key in Keys(es) && r.Err? ==> r.error == TypeMismatch
  {
    Compounds.GetInt(es, key)
  }

  /** `getTileEntityX`, `getTileEntityY`, `getTileEntityZ`. */
  function GetTileEntityX(es: Entries): Result<int32> { GetTileCoord(es, XKey) }
  function GetTileEntityY(es: Entries): Result<int32> { GetTileCoord(es, YKey) }
  function GetTileEntityZ(es: Entries): Result<int32> { GetTileCoord(es, ZKey) }

  /** `((TagInt) getTag(key)).setValue(v)`: the tag must exist and be an
      int. */
  function SetTileCoord(es: Entries, key: Name, v: int32): (r: Result<Entries>)
    ensures r.Ok? <==> GetTileCoord(es, key).Ok?
    ensures r.Err? ==> r.error == GetTileCoord(es, key).error
  {
    var t :- GetTag(es, key);
    if t.TagInt? then Ok(Put(es, key, TagInt(v))) else Err(TypeMismatch)
  }

  /** Setting a coordinate makes it read back as the new value; every other
      key, and the set of keys, is as before. */
  lemma SetTileCoordGet(es: Entries, key: Name, v: int32)
    requires SetTileCoord(es, key, v).Ok?
    ensures var r := SetTileCoord(es, key, v).value;
      GetTileCoord(r, key) == Ok(v) && Keys(r) == Keys(es) &&
      forall m | m != key :: Lookup(r, m) == Lookup(es, m)
  {
  }

  /** `setTileEntityX`, `setTileEntityY`, `setTileEntityZ`. */
  function SetTileEntityX(es: Entries, x: int32): Result<Entries> { SetTileCoord(es, XKey, x) }
  function SetTileEntityY(es: Entries, y: int32): Result<Entries> { SetTileCoord(es, YKey, y) }
  function SetTileEntityZ(es: Entries, z: int32): Result<Entries> { SetTileCoord(es, ZKey, z) }

  /** Each tile-entity setter is read back by its getter and leaves the
      other two coordinates alone. */
  lemma TileSettersGet(es: Entries, v: int32)
    ensures SetTileEntityX(es, v).Ok? ==>
      GetTileEntityX(SetTileEntityX(es, v).value) == Ok(v) &&
      GetTileEntityY(SetTileEntityX(es, v).value) == GetTileEntityY(es) &&
      GetTileEntityZ(SetTileEntityX(es, v).value) == GetTileEntityZ(es)
    ensures SetTileEntityY(es, v).Ok? ==>
      GetTileEntityY(SetTileEntityY(es, v).value) == Ok(v) &&
      GetTileEntityX(SetTileEntityY(es, v).value) == GetTileEntityX(es) &&
      GetTileEntityZ(SetTileEntityY(es, v).value) == GetTileEntityZ(es)
    ensures SetTileEntityZ(es, v).Ok? ==>
      GetTileEntityZ(SetTileEntityZ(es, v).value) == Ok(v) &&
      GetTileEntityX(SetTileEntityZ(es, v).value) == GetTileEntityX(es) &&
      GetTileEntityY(SetTileEntityZ(es, v).value) == GetTileEntityY(es)
  {
    if SetTileEntityX(es, v).Ok? { SetTileCoordGet(es, XKey, v); }
    if SetTileEntityY(es, v).Ok? { SetTileCoordGet(es, YKey, v); }
    if SetTileEntityZ(es, v).Ok? { SetTileCoordGet(es, ZKey, v); }
  }
}
