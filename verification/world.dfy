/** A world (dimension): its properties and the sparse index of its chunks,
    keyed by the 64-bit packing of the chunk coordinates. */
module Worlds {
  import opened Bytes
  import opened Wrappers
  import opened WorldProps
  import Chunks
  import Sections
  import Lighters

  const Two32 := 0x1_0000_0000
  const Two64 := 0x1_0000_0000_0000_0000

  /** The chunk index is a map from the packed key to the chunk. */
  datatype World = World(properties: WorldProperties, chunks: map<int64, Chunks.Chunk>)

  /** The constructor: no chunks yet. */
  function NewWorld(p: WorldProperties): (w: World)
    ensures w.properties == p && |w.chunks| == 0
  {
    World(p, map[])
  }

  // ---------------------------------------------------------------------
  // Keys

  /** `getIndex(x, z)`: the 32-bit pattern of z in the high half of a long
      and that of x in the low half. */
  function ChunkKey(x: int32, z: int32): (k: int64)
    ensures Unsigned(k, Two64) % Two32 == Unsigned(x, Two32)
    ensures Unsigned(k, Two64) / Two32 == Unsigned(z, Two32)
  {
    var u := Unsigned(z, Two32) * Two32 + Unsigned(x, Two32);
    UnsignedOfSigned(u, Two64);
    Signed(u, Two64)
  }

  lemma UnsignedOfSigned(u: nat, m: nat)
    requires u < m && m % 2 == 0
    ensures Unsigned(Signed(u, m), m) == u
  {
  }

  /** The x coordinate a key packs. */
  function KeyX(k: int64): int32
  {
    Signed(Unsigned(k, Two64) % Two32, Two32)
  }

  /** The z coordinate a key packs. */
  function KeyZ(k: int64): int32
  {
    Signed(Unsigned(k, Two64) / Two32, Two32)
  }

  /** Both coordinates can be read back from the key. */
  lemma KeyCoords(x: int32, z: int32)
    ensures KeyX(ChunkKey(x, z)) == x && KeyZ(ChunkKey(x, z)) == z
  {
  }

  /** Distinct coordinates never share a key. */
  lemma ChunkKeyInjective(x: int32, z: int32, x': int32, z': int32)
    ensures ChunkKey(x, z) == ChunkKey(x', z') <==> x == x' && z == z'
  {
    KeyCoords(x, z);
    KeyCoords(x', z');
  }

  /** `getRegionIndex(x, z)`: `(z & 31) << 5 | x & 31`, the slot of a chunk
      in its region file; the two bit fields are disjoint, so the or is a
      sum. */
  function RegionIndex(x: int, z: int): (i: int)
    ensures 0 <= i < 1024
    ensures i % 32 == x % 32 && i / 32 == z % 32
  {
    (z % 32) * 32 + x % 32
  }

  /** The region writer scans z in the outer loop and x in the inner one;
      that order is exactly the order of the slots. */
  lemma ScanOrder(x: int, z: int, x': int, z': int)
    requires 0 <= x < 32 && 0 <= z < 32 && 0 <= x' < 32 && 0 <= z' < 32
    ensures RegionIndex(x, z) < RegionIndex(x', z') <==> z < z' || (z == z' && x < x')
    ensures RegionIndex(x, z) == RegionIndex(x', z') <==> x == x' && z == z'
  {
  }

  // ---------------------------------------------------------------------
  // Chunk index

  /** Every chunk sits at the key of its own coordinates and has one section
      per 16 blocks of the world's height: what the index maintains when it
      is filled only by `GetChunkOrCreate`. */
  predicate Consistent(w: World)
  {
    forall k | k in w.chunks ::
      Chunks.Valid(w.chunks[k]) &&
      ChunkKey(w.chunks[k].chunkX, w.chunks[k].chunkZ) == k &&
      |w.chunks[k].sections| == HeightInChunkSections(w.properties)
  }

  /** Every chunk is well formed (whatever its key). */
  predicate AllValid(w: World)
  {
    forall k | k in w.chunks :: Chunks.Valid(w.chunks[k])
  }

  /** `getChunkIfExists`: the chunk stored under the key of (x, z), or
      nothing; in a consistent world that chunk is the one at (x, z). */
  function GetChunkIfExists(w: World, x: int32, z: int32): (r: Option<Chunks.Chunk>)
    ensures r.None? <==> ChunkKey(x, z) !in w.chunks
    ensures r.Some? ==> r.value == w.chunks[ChunkKey(x, z)]
    ensures r.Some? && Consistent(w) ==> r.value.chunkX == x && r.value.chunkZ == z
  {
    var k := ChunkKey(x, z);
    if k in w.chunks then
      ChunkKeyInjective(x, z, w.chunks[k].chunkX, w.chunks[k].chunkZ);
      Some(w.chunks[k])
    else None
  }

  /** `getChunkOrCreate`: the stored chunk, or a new empty chunk at (x, z)
      that is stored first.  Creating fails as the chunk constructor does
      when the world's height gives no usable section count. */
  function GetChunkOrCreate(w: World, x: int32, z: int32): (r: Result<(World, Chunks.Chunk)>)
    ensures ChunkKey(x, z) in w.chunks ==> r == Ok((w, w.chunks[ChunkKey(x, z)]))
    ensures r.Err? <==>
      (ChunkKey(x, z) !in w.chunks && !(0 <= HeightInChunkSections(w.properties) < 128))
    ensures r.Ok? ==>
      r.value.0.properties == w.properties &&
      r.value.0.chunks == w.chunks[ChunkKey(x, z) := r.value.1]
    ensures r.Ok? && ChunkKey(x, z) !in w.chunks ==>
      Chunks.Valid(r.value.1) && r.value.1.chunkX == x && r.value.1.chunkZ == z &&
      |r.value.1.sections| == HeightInChunkSections(w.properties) &&
      r.value.1.entities == [] && r.value.1.tileEntities == [] && r.value.1.tileTicks == []
    ensures Consistent(w) && r.Ok? ==> Consistent(r.value.0)
  {
    var k := ChunkKey(x, z);
    if k in w.chunks then Ok((w, w.chunks[k]))
    else
      var c :- Chunks.NewChunk(w.properties, x, z);
      var w' := w.(chunks := w.chunks[k := c]);
      assert Consistent(w) ==> Consistent(w') by {
        if Consistent(w) {
          forall k' | k' in w'.chunks
            ensures ChunkKey(w'.chunks[k'].chunkX, w'.chunks[k'].chunkZ) == k'
          {
          }
        }
      }
      Ok((w', c))
  }

  /** Asking again returns the same chunk and changes nothing. */
  lemma GetChunkOrCreateIdempotent(w: World, x: int32, z: int32)
    requires GetChunkOrCreate(w, x, z).Ok?
    ensures var (w', c) := GetChunkOrCreate(w, x, z).value;
      GetChunkOrCreate(w', x, z) == Ok((w', c))
  {
  }

  /** After `getChunkOrCreate` the chunk is found at (x, z), and every other
      coordinate pair sees what it saw before. */
  lemma GetAfterCreate(w: World, x: int32, z: int32, x': int32, z': int32)
    requires GetChunkOrCreate(w, x, z).Ok?
    ensures var (w', c) := GetChunkOrCreate(w, x, z).value;
      GetChunkIfExists(w', x', z') ==
        if x == x' && z == z' then Some(c) else GetChunkIfExists(w, x', z')
  {
    ChunkKeyInjective(x, z, x', z');
  }

  // ---------------------------------------------------------------------
  // Whole-world passes

  /** `refreshHeightMap`: every chunk's height map recomputed with the
      lighter; nothing else changes. */
  function RefreshHeightMap(w: World, l: Lighters.Lighter): (r: World)
    requires AllValid(w)
    ensures r.properties == w.properties && r.chunks.Keys == w.chunks.Keys && AllValid(r)
    ensures forall k | k in w.chunks ::
      r.chunks[k] == w.chunks[k].(heightMap := r.chunks[k].heightMap)
    ensures forall k, x, z | k in w.chunks && 0 <= x < 16 && 0 <= z < 16 ::
      Chunks.IsColumnHeight(w.chunks[k], l, x, z, Chunks.GetHeight(r.chunks[k], x, z))
  {
    w.(chunks := map k | k in w.chunks :: Chunks.CalculateHeightMap(w.chunks[k], l))
  }

  /** `fullbright`: every section of every chunk at full sky light. */
  function Fullbright(w: World): (r: World)
    requires AllValid(w)
    ensures r.properties == w.properties && r.chunks.Keys == w.chunks.Keys && AllValid(r)
    ensures forall k | k in w.chunks ::
      r.chunks[k] == w.chunks[k].(sections := r.chunks[k].sections) &&
      |r.chunks[k].sections| == |w.chunks[k].sections|
    ensures forall k, i, j | k in w.chunks && 0 <= i < |r.chunks[k].sections| && 0 <= j < Sections.Length ::
      r.chunks[k].sections[i].lightSky[j] == 15
    ensures forall k, i | k in w.chunks && 0 <= i < |r.chunks[k].sections| ::
      r.chunks[k].sections[i] == w.chunks[k].sections[i].(lightSky := r.chunks[k].sections[i].lightSky)
  {
    w.(chunks := map k | k in w.chunks :: Chunks.Fullbright(w.chunks[k]))
  }

  /** Consistency survives both passes: they keep coordinates and section
      counts. */
  lemma PassesKeepConsistency(w: World, l: Lighters.Lighter)
    requires Consistent(w)
    ensures Consistent(RefreshHeightMap(w, l)) && Consistent(Fullbright(w))
  {
  }
}
