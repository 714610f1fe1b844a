/** Copying a schematic into a world: every block of the cuboid to the
    translated position, creating chunks on demand, then every tile entity,
    cloned and shifted, appended to the chunk it falls into.  Plain
    entities are not copied. */
module Copier {
  import opened Bytes
  import opened Wrappers
  import opened Tags
  import opened Compounds
  import Sections
  import Chunks
  import Worlds
  import Schematics
  import Entities

  /** A block position, in the world or in the schematic. */
  datatype Pos = Pos(x: int32, y: int32, z: int32)

  /** Where the schematic's (0, 0, 0) goes: `startX`, `startY`, `startZ`. */
  datatype Origin = Origin(x: int32, y: int32, z: int32)

  /** `x + startX`, `y + startY`, `z + startZ`: int additions, wrapping. */
  function Target(o: Origin, c: Pos): Pos
  {
    Pos(ToInt32(c.x + o.x), ToInt32(c.y + o.y), ToInt32(c.z + o.z))
  }

  /** The key of the chunk holding a world position, `(x >> 4, z >> 4)`;
      the arithmetic shift rounds down, as Dafny's division by 16 does. */
  function ChunkOf(p: Pos): int64
  {
    Worlds.ChunkKey(p.x / 16, p.z / 16)
  }

  /** The id and data of the block at a world position, when its chunk
      exists and has a section at that height. */
  function BlockAt(w: Worlds.World, p: Pos): Option<(int16, int8)>
    requires Worlds.AllValid(w)
  {
    var k := ChunkOf(p);
    if k !in w.chunks then None else ChunkBlock(w.chunks[k], p)
  }

  /** The id and data at a world position inside a given chunk, when the
      chunk has a section at that height. */
  function ChunkBlock(chunk: Chunks.Chunk, p: Pos): Option<(int16, int8)>
    requires Chunks.Valid(chunk)
  {
    if !(0 <= p.y / 16 < |chunk.sections|) then None
    else Some((Chunks.BlockIdAt(chunk, p.x, p.y, p.z),
               Sections.GetBlockData(chunk.sections[p.y / 16], p.x, p.y, p.z)))
  }

  // ---------------------------------------------------------------------
  // The cuboid

  /** Schematic cells inside the cuboid. */
  predicate InBox(s: Schematics.Schematic, c: Pos)
  {
    Schematics.InBox(s, c.x, c.y, c.z)
  }

  /** The innermost loop: `z` from `z` up to the length. */
  function Column(x: int32, y: int32, z: int32, length: int16): (cs: seq<Pos>)
    requires 0 <= z
    ensures forall c :: c in cs <==> c.x == x && c.y == y && z <= c.z < length
    decreases length - z
  {
    if z >= length then [] else [Pos(x, y, z)] + Column(x, y, z + 1, length)
  }

  /** The middle loop: `y` from `y` up to the height, a column each. */
  function Rows(x: int32, y: int32, height: int16, length: int16): (cs: seq<Pos>)
    requires 0 <= y
    ensures forall c :: c in cs <==> c.x == x && y <= c.y < height && 0 <= c.z < length
    decreases height - y
  {
    if y >= height then [] else Column(x, y, 0, length) + Rows(x, y + 1, height, length)
  }

  /** The outer loop: `x` from `x` up to the width, a slab of rows each. */
  function Slabs(x: int32, width: int16, height: int16, length: int16): (cs: seq<Pos>)
    requires 0 <= x
    ensures forall c :: c in cs <==> x <= c.x < width && 0 <= c.y < height && 0 <= c.z < length
    decreases width - x
  {
    if x >= width then [] else Rows(x, 0, height, length) + Slabs(x + 1, width, height, length)
  }

  /** The cells in the order the three nested loops visit them. */
  function BoxCells(s: Schematics.Schematic): (cs: seq<Pos>)
    ensures forall c :: c in cs <==> InBox(s, c)
  {
    Slabs(0, s.width, s.height, s.length)
  }

  /** Equal wrapped sums of in-range values come from equal summands. */
  lemma WrapInjective(a: int, b: int, k: int)
    requires 0 <= a < 0x8000 && 0 <= b < 0x8000
    ensures ToInt32(a + k) == ToInt32(b + k) <==> a == b
  {
    var m := 0x1_0000_0000;
    if ToInt32(a + k) == ToInt32(b + k) {
      Worlds.UnsignedOfSigned((a + k) % m, m);
      Worlds.UnsignedOfSigned((b + k) % m, m);
      assert (a + k) % m == (b + k) % m;
      var qa, qb := (a + k) / m, (b + k) / m;
      assert a - b == m * (qa - qb);
    }
  }

  /** Distinct cells of the cuboid land on distinct world positions. */
  lemma TargetInjective(s: Schematics.Schematic, o: Origin, c: Pos, c': Pos)
    requires InBox(s, c) && InBox(s, c')
    ensures Target(o, c) == Target(o, c') <==> c == c'
  {
    if c.x != c'.x {
      WrapInjective(c.x, c'.x, o.x);
      assert Target(o, c).x != Target(o, c').x;
    } else if c.y != c'.y {
      WrapInjective(c.y, c'.y, o.y);
      assert Target(o, c).y != Target(o, c').y;
    } else if c.z != c'.z {
      WrapInjective(c.z, c'.z, o.z);
      assert Target(o, c).z != Target(o, c').z;
    }
  }

  // ---------------------------------------------------------------------
  // Blocks

  /** What the copier reads for a cell: `(short) (getBlockId & 0xFF)` and
      `getBlockData`.  The mask turns the signed byte into 0 .. 255. */
  function Source(s: Schematics.Schematic, c: Pos): (r: Result<(int16, int8)>)
    ensures r.Ok? <==> Schematics.GetBlockId(s, c.x, c.y, c.z).Ok? && Schematics.GetBlockData(s, c.x, c.y, c.z).Ok?
    ensures r.Ok? ==> 0 <= r.value.0 < 256 && r.value.0 % 256 == Schematics.GetBlockId(s, c.x, c.y, c.z).value % 256
    ensures r.Ok? ==> r.value.1 == Schematics.GetBlockData(s, c.x, c.y, c.z).value
  {
    var id :- Schematics.GetBlockId(s, c.x, c.y, c.z);
    var data :- Schematics.GetBlockData(s, c.x, c.y, c.z);
    Ok((id % 256, data))
  }

  /** `r` differs from `w` only by added chunks and by block sections: the
      same properties, every chunk kept with all but its sections as they
      were, and every added chunk without entities or tile entities. */
  predicate Grows(w: Worlds.World, r: Worlds.World)
  {
    r.properties == w.properties && w.chunks.Keys <= r.chunks.Keys && Worlds.AllValid(r) &&
    forall k | k in r.chunks ::
      if k in w.chunks then r.chunks[k] == w.chunks[k].(sections := r.chunks[k].sections)
      else r.chunks[k].entities == [] && r.chunks[k].tileEntities == []
  }

  lemma GrowsTrans(a: Worlds.World, b: Worlds.World, c: Result<Worlds.World>)
    requires Grows(a, b)
    ensures c.Ok? && Grows(b, c.value) ==> Grows(a, c.value)
  {
  }

  /** One pass of the inner loop body: read the cell, then place it at its
      target. */
  function CopyBlock(s: Schematics.Schematic, w: Worlds.World, o: Origin, c: Pos): (r: Result<Worlds.World>)
    requires Worlds.AllValid(w)
    ensures r.Ok? ==> Source(s, c).Ok? && r == Place(w, Target(o, c), Source(s, c).value)
    ensures r.Ok? ==> Grows(w, r.value)
  {
    var v :- Source(s, c);
    Place(w, Target(o, c), v)
  }

  /** Writing one block at world position `t`: get or create the chunk
      `(tx >> 4, tz >> 4)` and set the block in section `ty >> 4`, whose
      index `getChunkSection` asserts is in range. */
  function Place(w: Worlds.World, t: Pos, v: (int16, int8)): (r: Result<Worlds.World>)
    requires Worlds.AllValid(w)
    ensures r.Ok? ==> Grows(w, r.value)
  {
    var got :- Worlds.GetChunkOrCreate(w, t.x / 16, t.z / 16);
    var chunk := got.1;
    if !(0 <= t.y / 16 < |chunk.sections|) then Err(AssertionFailed)
    else Ok(got.0.(chunks := got.0.chunks[ChunkOf(t) := Chunks.SetBlock(chunk, t.x, t.y, t.z, v.0, v.1)]))
  }

  /** The chunk a placement writes to, and what it becomes. */
  lemma PlaceShape(w: Worlds.World, t: Pos, v: (int16, int8))
    requires Worlds.AllValid(w) && Place(w, t, v).Ok?
    ensures var chunk := Worlds.GetChunkOrCreate(w, t.x / 16, t.z / 16).value.1;
      Chunks.Valid(chunk) && 0 <= t.y / 16 < |chunk.sections| &&
      (ChunkOf(t) in w.chunks ==> chunk == w.chunks[ChunkOf(t)]) &&
      Place(w, t, v).value.chunks == w.chunks[ChunkOf(t) := Chunks.SetBlock(chunk, t.x, t.y, t.z, v.0, v.1)]
  {
  }

  /** A placement writes its target. */
  lemma PlaceWrites(w: Worlds.World, t: Pos, v: (int16, int8))
    requires Worlds.AllValid(w) && Place(w, t, v).Ok?
    ensures BlockAt(Place(w, t, v).value, t) == Some(v)
  {
    PlaceShape(w, t, v);
  }

  /** A placement changes no other position of a chunk that already
      existed. */
  lemma PlaceFrame(w: Worlds.World, t: Pos, v: (int16, int8), p: Pos)
    requires Worlds.AllValid(w) && Place(w, t, v).Ok?
    requires p != t && ChunkOf(p) in w.chunks
    ensures BlockAt(Place(w, t, v).value, p) == BlockAt(w, p)
  {
    PlaceShape(w, t, v);
    if ChunkOf(p) == ChunkOf(t) {
      Worlds.ChunkKeyInjective(p.x / 16, p.z / 16, t.x / 16, t.z / 16);
      SameChunk(w.chunks[ChunkOf(t)], t, v.0, v.1, p);
    }
  }

  /** One pass writes its cell's target. */
  lemma CopyBlockWrites(s: Schematics.Schematic, w: Worlds.World, o: Origin, c: Pos)
    requires Worlds.AllValid(w) && CopyBlock(s, w, o, c).Ok?
    ensures BlockAt(CopyBlock(s, w, o, c).value, Target(o, c)) == Some(Source(s, c).value)
  {
    PlaceWrites(w, Target(o, c), Source(s, c).value);
  }

  /** One pass changes no other position of a chunk that already existed. */
  lemma CopyBlockFrame(s: Schematics.Schematic, w: Worlds.World, o: Origin, c: Pos, p: Pos)
    requires Worlds.AllValid(w) && CopyBlock(s, w, o, c).Ok?
    requires p != Target(o, c) && ChunkOf(p) in w.chunks
    ensures BlockAt(CopyBlock(s, w, o, c).value, p) == BlockAt(w, p)
  {
    PlaceFrame(w, Target(o, c), Source(s, c).value, p);
  }

  /** Within one chunk, `setBlock` at `t` leaves every other position as it
      was: other sections are untouched, and inside the written section the
      index tells positions of one chunk apart. */
  lemma SameChunk(chunk: Chunks.Chunk, t: Pos, id: int16, data: int8, p: Pos)
    requires Chunks.Valid(chunk) && 0 <= t.y / 16 < |chunk.sections|
    requires p.x / 16 == t.x / 16 && p.z / 16 == t.z / 16 && p != t
    ensures ChunkBlock(Chunks.SetBlock(chunk, t.x, t.y, t.z, id, data), p) == ChunkBlock(chunk, p)
  {
    if 0 <= p.y / 16 < |chunk.sections| && p.y / 16 == t.y / 16 {
      Sections.SetBlockThenGet(chunk.sections[t.y / 16], t.x, t.y, t.z, id, data, p.x, p.y, p.z);
    }
  }

  /** The loops as a fold over the cells in visiting order; the first
      failure ends the copy. */
  function CopyBlocks(s: Schematics.Schematic, w: Worlds.World, o: Origin, cs: seq<Pos>): (r: Result<Worlds.World>)
    requires Worlds.AllValid(w)
    ensures r.Ok? ==> Grows(w, r.value)
    decreases |cs|
  {
    if |cs| == 0 then Ok(w)
    else
      var w1 :- CopyBlock(s, w, o, cs[0]);
      var r := CopyBlocks(s, w1, o, cs[1..]);
      GrowsTrans(w, w1, r);
      r
  }

  /** Positions no cell targets keep their block, if their chunk existed. */
  lemma {:induction false} CopyBlocksFrame(s: Schematics.Schematic, w: Worlds.World, o: Origin, cs: seq<Pos>, p: Pos)
    requires Worlds.AllValid(w) && CopyBlocks(s, w, o, cs).Ok?
    requires ChunkOf(p) in w.chunks
    requires forall i | 0 <= i < |cs| :: Target(o, cs[i]) != p
    ensures BlockAt(CopyBlocks(s, w, o, cs).value, p) == BlockAt(w, p)
    decreases |cs|
  {
    if |cs| > 0 {
      BlocksStep(s, w, o, cs);
      var w1 := CopyBlock(s, w, o, cs[0]).value;
      CopyBlockFrame(s, w, o, cs[0], p);
      CopyBlocksFrame(s, w1, o, cs[1..], p);
    }
  }

  /** One step of the fold, unfolded. */
  lemma BlocksStep(s: Schematics.Schematic, w: Worlds.World, o: Origin, cs: seq<Pos>)
    requires Worlds.AllValid(w) && |cs| > 0 && CopyBlocks(s, w, o, cs).Ok?
    ensures CopyBlock(s, w, o, cs[0]).Ok?
    ensures CopyBlocks(s, w, o, cs) == CopyBlocks(s, CopyBlock(s, w, o, cs[0]).value, o, cs[1..])
  {
  }

  /** Cell `c` can be read, and world `r` holds its block at its target. */
  predicate Wrote(s: Schematics.Schematic, r: Worlds.World, o: Origin, c: Pos)
    requires Worlds.AllValid(r)
  {
    Source(s, c).Ok? && BlockAt(r, Target(o, c)) == Some(Source(s, c).value)
  }

  /** A cell that the rest of the fold does not visit again keeps the
      block its pass wrote. */
  lemma LastVisitStays(s: Schematics.Schematic, w: Worlds.World, o: Origin, cs: seq<Pos>)
    requires Worlds.AllValid(w) && |cs| > 0 && CopyBlocks(s, w, o, cs).Ok?
    requires forall c | c in cs :: InBox(s, c)
    requires cs[0] !in cs[1..]
    ensures Wrote(s, CopyBlocks(s, w, o, cs).value, o, cs[0])
  {
    BlocksStep(s, w, o, cs);
    var w1 := CopyBlock(s, w, o, cs[0]).value;
    var rest := cs[1..];
    var t := Target(o, cs[0]);
    CopyBlockWrites(s, w, o, cs[0]);
    forall j | 0 <= j < |rest| ensures Target(o, rest[j]) != t {
      assert rest[j] in cs;
      TargetInjective(s, o, rest[j], cs[0]);
    }
    CopyBlocksFrame(s, w1, o, rest, t);
  }

  /** Every visited cell of the cuboid ends up at its target. */
  lemma {:induction false} CopyBlocksWrites(s: Schematics.Schematic, w: Worlds.World, o: Origin, cs: seq<Pos>, c: Pos)
    requires Worlds.AllValid(w) && CopyBlocks(s, w, o, cs).Ok?
    requires forall c' | c' in cs :: InBox(s, c')
    requires c in cs
    ensures Wrote(s, CopyBlocks(s, w, o, cs).value, o, c)
    decreases |cs|
  {
    BlocksStep(s, w, o, cs);
    var rest := cs[1..];
    if c == cs[0] && c !in rest {
      LastVisitStays(s, w, o, cs);
    } else {
      var k :| 0 <= k < |cs| && cs[k] == c;
      if k > 0 {
        assert rest[k - 1] == c;
      }
      CopyBlocksWrites(s, CopyBlock(s, w, o, cs[0]).value, o, rest, c);
    }
  }

  // ---------------------------------------------------------------------
  // Tile entities

  /** The three setters in turn on a tile entity that has the three int
      coordinates: each is read back, and no other key changes. */
  function Relocate(es: Entries, x: int32, y: int32, z: int32): (r: Entries)
    requires Entities.GetTileEntityX(es).Ok? && Entities.GetTileEntityY(es).Ok? && Entities.GetTileEntityZ(es).Ok?
    ensures Entities.GetTileEntityX(r) == Ok(x) && Entities.GetTileEntityY(r) == Ok(y) && Entities.GetTileEntityZ(r) == Ok(z)
    ensures forall n | n != Entities.XKey && n != Entities.YKey && n != Entities.ZKey :: Lookup(r, n) == Lookup(es, n)
  {
    Entities.TileSettersGet(es, x);
    var c1 := Entities.SetTileEntityX(es, x).value;
    Entities.SetTileCoordGet(es, Entities.XKey, x);
    Entities.TileSettersGet(c1, y);
    var c2 := Entities.SetTileEntityY(c1, y).value;
    Entities.SetTileCoordGet(c1, Entities.YKey, y);
    Entities.TileSettersGet(c2, z);
    var c3 := Entities.SetTileEntityZ(c2, z).value;
    Entities.SetTileCoordGet(c2, Entities.ZKey, z);
    c3
  }

  /** Where one tile entity goes: the for-each cast to a compound, then the
      three getters plus the origin, as wrapping int additions. */
  function Shift(t: Tag, o: Origin): (r: Result<Pos>)
    ensures r.Ok? <==>
      t.TagCompound? && Entities.GetTileEntityX(t.entries).Ok? &&
      Entities.GetTileEntityY(t.entries).Ok? && Entities.GetTileEntityZ(t.entries).Ok?
    ensures r.Ok? ==>
      r.value.x == ToInt32(Entities.GetTileEntityX(t.entries).value + o.x) &&
      r.value.y == ToInt32(Entities.GetTileEntityY(t.entries).value + o.y) &&
      r.value.z == ToInt32(Entities.GetTileEntityZ(t.entries).value + o.z)
  {
    if !t.TagCompound? then Err(TypeMismatch)
    else
      var gx, gy, gz := Entities.GetTileEntityX(t.entries), Entities.GetTileEntityY(t.entries), Entities.GetTileEntityZ(t.entries);
      if gx.Err? then Err(gx.error)
      else if gy.Err? then Err(gy.error)
      else if gz.Err? then Err(gz.error)
      else Ok(Pos(ToInt32(gx.value + o.x), ToInt32(gy.value + o.y), ToInt32(gz.value + o.z)))
  }

  /** The copy that is appended: `clone`, then the three setters with the
      shifted coordinates.  Values have no identity, so the clone is the tag
      itself (`Tags.CloneEqual`) and the schematic's own list is untouched. */
  function ShiftedCopy(t: Tag, o: Origin): (r: Tag)
    requires Shift(t, o).Ok?
    ensures r.TagCompound?
    ensures var p := Shift(t, o).value;
      Entities.GetTileEntityX(r.entries) == Ok(p.x) &&
      Entities.GetTileEntityY(r.entries) == Ok(p.y) &&
      Entities.GetTileEntityZ(r.entries) == Ok(p.z)
    ensures forall n | n != Entities.XKey && n != Entities.YKey && n != Entities.ZKey ::
      Lookup(r.entries, n) == Lookup(t.entries, n)
  {
    var p := Shift(t, o).value;
    TagCompound(Relocate(t.entries, p.x, p.y, p.z))
  }

  /** `w` with `t` appended to the tile entities of its chunk `k`. */
  function Append(w: Worlds.World, k: int64, t: Tag): (r: Worlds.World)
    requires k in w.chunks
    ensures r.properties == w.properties && r.chunks.Keys == w.chunks.Keys
    ensures r.chunks[k].tileEntities == w.chunks[k].tileEntities + [t]
    ensures forall j | j in w.chunks && j != k :: r.chunks[j] == w.chunks[j]
    ensures forall j | j in w.chunks :: r.chunks[j] == w.chunks[j].(tileEntities := r.chunks[j].tileEntities)
  {
    var c := w.chunks[k];
    w.(chunks := w.chunks[k := c.(tileEntities := c.tileEntities + [t])])
  }

  /** The shifted copies that land in chunk `k`, in order. */
  function Landing(tes: seq<Tag>, o: Origin, k: int64): seq<Tag>
    decreases |tes|
  {
    if |tes| == 0 then []
    else
      var rest := Landing(tes[1..], o, k);
      if Shift(tes[0], o).Ok? && ChunkOf(Shift(tes[0], o).value) == k then [ShiftedCopy(tes[0], o)] + rest else rest
  }

  /** All tile entities can be shifted, and each lands in a chunk of `w`. */
  predicate AllLand(tes: seq<Tag>, w: Worlds.World, o: Origin)
  {
    forall i | 0 <= i < |tes| :: Shift(tes[i], o).Ok? && ChunkOf(Shift(tes[i], o).value) in w.chunks
  }

  /** The tile-entity loop: each shifted copy appended to the tile entities
      of the chunk `(x >> 4, z >> 4)`, which must exist: an absent chunk is
      a null dereference. */
  function CopyTileEntities(tes: seq<Tag>, w: Worlds.World, o: Origin): (r: Result<Worlds.World>)
    ensures r.Ok? ==> r.value.properties == w.properties && r.value.chunks.Keys == w.chunks.Keys
    ensures r.Ok? ==> forall k | k in w.chunks ::
      r.value.chunks[k] == w.chunks[k].(tileEntities := r.value.chunks[k].tileEntities)
    decreases |tes|
  {
    if |tes| == 0 then Ok(w)
    else
      var p :- Shift(tes[0], o);
      match Worlds.GetChunkIfExists(w, p.x / 16, p.z / 16)
      case None => Err(NullChunk)
      case Some(_) => CopyTileEntities(tes[1..], Append(w, ChunkOf(p), ShiftedCopy(tes[0], o)), o)
  }

  lemma SeqAssoc<T>(a: seq<T>, b: seq<T>, c: seq<T>)
    ensures a + (b + c) == (a + b) + c
  {
  }

  /** One step of the tile-entity loop, unfolded. */
  lemma TileStep(tes: seq<Tag>, w: Worlds.World, o: Origin)
    requires |tes| > 0
    ensures var p := Shift(tes[0], o);
      CopyTileEntities(tes, w, o) ==
        if p.Err? then Err(p.error)
        else if ChunkOf(p.value) !in w.chunks then Err(NullChunk)
        else CopyTileEntities(tes[1..], Append(w, ChunkOf(p.value), ShiftedCopy(tes[0], o)), o)
  {
  }

  /** `AllLand` split at the first tile entity, against any world with the
      same chunk keys for the rest. */
  lemma AllLandStep(tes: seq<Tag>, w: Worlds.World, w1: Worlds.World, o: Origin)
    requires |tes| > 0 && w1.chunks.Keys == w.chunks.Keys
    ensures AllLand(tes, w, o) <==>
      Shift(tes[0], o).Ok? && ChunkOf(Shift(tes[0], o).value) in w.chunks && AllLand(tes[1..], w1, o)
  {
    assert forall i | 1 <= i < |tes| :: tes[1..][i - 1] == tes[i];
    if Shift(tes[0], o).Ok? && ChunkOf(Shift(tes[0], o).value) in w.chunks && AllLand(tes[1..], w1, o) {
      forall i | 0 <= i < |tes|
        ensures Shift(tes[i], o).Ok? && ChunkOf(Shift(tes[i], o).value) in w.chunks
      {
        if i > 0 {
          assert tes[1..][i - 1] == tes[i];
        }
      }
    }
  }

  /** The loop succeeds exactly when every tile entity can be shifted and
      lands in an existing chunk. */
  lemma {:induction false} TilesSucceed(tes: seq<Tag>, w: Worlds.World, o: Origin)
    ensures CopyTileEntities(tes, w, o).Ok? <==> AllLand(tes, w, o)
    decreases |tes|
  {
    if |tes| > 0 {
      TileStep(tes, w, o);
      var p := Shift(tes[0], o);
      if p.Ok? && ChunkOf(p.value) in w.chunks {
        var w1 := Append(w, ChunkOf(p.value), ShiftedCopy(tes[0], o));
        TilesSucceed(tes[1..], w1, o);
        AllLandStep(tes, w, w1, o);
      } else {
        AllLandStep(tes, w, w, o);
      }
    }
  }

  /** When every tile entity can be shifted, the loop's only failure is the
      null chunk. */
  lemma {:induction false} TilesFailNull(tes: seq<Tag>, w: Worlds.World, o: Origin)
    requires forall t | t in tes :: Shift(t, o).Ok?
    ensures CopyTileEntities(tes, w, o).Err? ==> CopyTileEntities(tes, w, o).error == NullChunk
    decreases |tes|
  {
    if |tes| > 0 {
      TileStep(tes, w, o);
      var p := Shift(tes[0], o);
      assert tes[0] in tes;
      if ChunkOf(p.value) in w.chunks {
        assert forall t | t in tes[1..] :: t in tes;
        TilesFailNull(tes[1..], Append(w, ChunkOf(p.value), ShiftedCopy(tes[0], o)), o);
      }
    }
  }

  /** After the loop every chunk holds its former tile entities followed by
      the shifted copies that land in it, in order. */
  lemma {:induction false} TilesLand(tes: seq<Tag>, w: Worlds.World, o: Origin, k: int64)
    requires CopyTileEntities(tes, w, o).Ok? && k in w.chunks
    ensures CopyTileEntities(tes, w, o).value.chunks[k].tileEntities == w.chunks[k].tileEntities + Landing(tes, o, k)
    decreases |tes|
  {
    if |tes| > 0 {
      TileStep(tes, w, o);
      var d := ChunkOf(Shift(tes[0], o).value);
      var t := ShiftedCopy(tes[0], o);
      TilesLand(tes[1..], Append(w, d, t), o, k);
      if d == k {
        assert Landing(tes, o, k) == [t] + Landing(tes[1..], o, k);
        SeqAssoc(w.chunks[k].tileEntities, [t], Landing(tes[1..], o, k));
      }
    }
  }

  // ---------------------------------------------------------------------
  // The whole copy

  /** `copy(source, target, startX, startY, startZ)`.  The assertion compares
      the int sum `height + startY` with the world's height. */
  function Copy(s: Schematics.Schematic, w: Worlds.World, o: Origin): (r: Result<Worlds.World>)
    requires Worlds.AllValid(w)
    ensures !(ToInt32(s.height + o.y) < w.properties.height) ==> r == Err(AssertionFailed)
    ensures r.Ok? ==> r.value.properties == w.properties && w.chunks.Keys <= r.value.chunks.Keys
    ensures r.Ok? ==> Worlds.AllValid(r.value)
  {
    if !(ToInt32(s.height + o.y) < w.properties.height) then Err(AssertionFailed)
    else
      var w1 :- CopyBlocks(s, w, o, BoxCells(s));
      CopyTileEntities(s.tileEntities, w1, o)
  }

  /** The world after the block loops. */
  function Blocks(s: Schematics.Schematic, w: Worlds.World, o: Origin): Result<Worlds.World>
    requires Worlds.AllValid(w)
  {
    CopyBlocks(s, w, o, BoxCells(s))
  }

  /** Past the height assertion, a copy is the block loops followed by the
      tile-entity loop. */
  lemma CopyThenTiles(s: Schematics.Schematic, w: Worlds.World, o: Origin)
    requires Worlds.AllValid(w) && Blocks(s, w, o).Ok?
    requires ToInt32(s.height + o.y) < w.properties.height
    ensures Copy(s, w, o) == CopyTileEntities(s.tileEntities, Blocks(s, w, o).value, o)
  {
  }

  /** The tile-entity loop touches no block. */
  lemma TilesKeepBlocks(tes: seq<Tag>, w: Worlds.World, o: Origin, p: Pos)
    requires Worlds.AllValid(w) && CopyTileEntities(tes, w, o).Ok?
    ensures Worlds.AllValid(CopyTileEntities(tes, w, o).value)
    ensures BlockAt(CopyTileEntities(tes, w, o).value, p) == BlockAt(w, p)
  {
  }

  /** After a copy every cell of the cuboid is at its translated position,
      with the id masked to 0 .. 255 and the data as stored. */
  lemma CopyWritesBox(s: Schematics.Schematic, w: Worlds.World, o: Origin, c: Pos)
    requires Worlds.AllValid(w) && Copy(s, w, o).Ok? && InBox(s, c)
    ensures Source(s, c).Ok? && 0 <= Source(s, c).value.0 < 256
    ensures BlockAt(Copy(s, w, o).value, Target(o, c)) == Some(Source(s, c).value)
  {
    var cs := BoxCells(s);
    var w1 := Blocks(s, w, o).value;
    CopyBlocksWrites(s, w, o, cs, c);
    assert Wrote(s, w1, o, c);
    CopyThenTiles(s, w, o);
    TilesKeepBlocks(s.tileEntities, w1, o, Target(o, c));
  }

  /** A copy changes no block outside the translated cuboid in a chunk
      that existed before. */
  lemma CopyKeepsOutside(s: Schematics.Schematic, w: Worlds.World, o: Origin, p: Pos)
    requires Worlds.AllValid(w) && Copy(s, w, o).Ok?
    requires ChunkOf(p) in w.chunks
    requires forall c | InBox(s, c) :: Target(o, c) != p
    ensures BlockAt(Copy(s, w, o).value, p) == BlockAt(w, p)
  {
    var cs := BoxCells(s);
    var w1 := Blocks(s, w, o).value;
    CopyBlocksFrame(s, w, o, cs, p);
    TilesKeepBlocks(s.tileEntities, w1, o, p);
  }

  /** After a copy every chunk holds its former tile entities followed by
      the shifted copies that land in it; plain entities are not copied, and
      a chunk the copy created starts with none. */
  lemma CopyTileEntitiesLand(s: Schematics.Schematic, w: Worlds.World, o: Origin, k: int64)
    requires Worlds.AllValid(w) && Copy(s, w, o).Ok? && k in Copy(s, w, o).value.chunks
    ensures var r := Copy(s, w, o).value;
      r.chunks[k].tileEntities ==
        (if k in w.chunks then w.chunks[k].tileEntities else []) + Landing(s.tileEntities, o, k) &&
      r.chunks[k].entities == (if k in w.chunks then w.chunks[k].entities else [])
  {
    var w1 := Blocks(s, w, o).value;
    TilesLand(s.tileEntities, w1, o, k);
  }

  /** A tile entity whose chunk neither existed nor received a block makes
      the copy fail with a null dereference, once every tile entity could be
      shifted. */
  lemma CopyNullChunk(s: Schematics.Schematic, w: Worlds.World, o: Origin, i: int)
    requires Worlds.AllValid(w) && Blocks(s, w, o).Ok?
    requires ToInt32(s.height + o.y) < w.properties.height
    requires forall j | 0 <= j < |s.tileEntities| :: Shift(s.tileEntities[j], o).Ok?
    requires 0 <= i < |s.tileEntities|
    requires ChunkOf(Shift(s.tileEntities[i], o).value) !in Blocks(s, w, o).value.chunks
    ensures Copy(s, w, o) == Err(NullChunk)
  {
    var w1 := Blocks(s, w, o).value;
    CopyThenTiles(s, w, o);
    TilesSucceed(s.tileEntities, w1, o);
    TilesFailNull(s.tileEntities, w1, o);
    assert !AllLand(s.tileEntities, w1, o);
  }
}
