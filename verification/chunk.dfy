/** A chunk: a 16-block-wide column of the world made of stacked sections,
    with per-column biomes and heights, timestamps and the entity lists. */
module Chunks {
  import opened Bytes
  import opened Wrappers
  import opened Tags
  import opened Util
  import opened WorldProps
  import Sections
  import Lighters

  /** Columns in a chunk. */
  const Columns := 256

  /** The back-reference to the world is not modelled: the operations that
      need the world's properties take them as a parameter.  The three entity
      lists hold tags, because the lists a chunk reads back are not checked
      element by element. */
  datatype Chunk = Chunk(
    chunkX: int32,
    chunkZ: int32,
    sections: seq<Sections.Section>,
    biomes: seq<int8>,
    heightMap: seq<int32>,
    lastUpdated: int64,
    populated: bool,
    inhabitedTime: int64,
    entities: seq<Tag>,
    tileEntities: seq<Tag>,
    tileTicks: seq<Tag>)

  /** Section `i` sits at height `i`; the section index is a Java byte, so
      there are fewer than 128. */
  predicate Stacked(ss: seq<Sections.Section>)
  {
    |ss| < 128 && forall i | 0 <= i < |ss| :: Sections.Valid(ss[i]) && ss[i].chunkY == i
  }

  /** The sections are stacked and every array has its full size. */
  predicate Valid(c: Chunk)
  {
    |c.biomes| == Columns && |c.heightMap| == Columns && Stacked(c.sections)
  }

  /** The empty sections `0 .. n-1` the constructor creates. */
  function EmptySections(n: nat): (ss: seq<Sections.Section>)
    requires n < 128
    ensures |ss| == n
    ensures forall i | 0 <= i < n :: ss[i] == Sections.New(i)
  {
    seq(n, i requires 0 <= i < n => Sections.New(i))
  }

  /** The constructor.  The section count is the world's height in sections;
      a negative count fails when the array is allocated, and one of 128 or
      more fails because the byte loop counter wraps to -128 before the
      loop ends and indexes the array with it. */
  function NewChunk(p: WorldProperties, x: int32, z: int32): (r: Result<Chunk>)
    ensures r.Ok? <==> 0 <= HeightInChunkSections(p) < 128
    ensures HeightInChunkSections(p) < 0 ==> r == Err(NegativeSize(HeightInChunkSections(p)))
    ensures HeightInChunkSections(p) >= 128 ==> r == Err(IndexOutOfBounds(-128))
    ensures r.Ok? ==> Valid(r.value) && r.value.chunkX == x && r.value.chunkZ == z
    ensures r.Ok? ==> |r.value.sections| == HeightInChunkSections(p)
    ensures r.Ok? ==> forall i | 0 <= i < |r.value.sections| :: Sections.IsEmpty(r.value.sections[i])
    ensures r.Ok? ==> forall i | 0 <= i < Columns :: r.value.biomes[i] == 0 && r.value.heightMap[i] == 0
    ensures r.Ok? ==> r.value.lastUpdated == 0 && r.value.populated && r.value.inhabitedTime == 0
    ensures r.Ok? ==> r.value.entities == [] && r.value.tileEntities == [] && r.value.tileTicks == []
  {
    var n := HeightInChunkSections(p);
    if n < 0 then Err(NegativeSize(n))
    else if n >= 128 then Err(IndexOutOfBounds(-128))
    else
      Ok(Chunk(x, z, EmptySections(n), seq(Columns, _ => 0), seq(Columns, _ => 0), 0, true, 0, [], [], []))
  }

  // ---------------------------------------------------------------------
  // Columns

  /** `getIndex(x, z)`: `(z & 15) << 4 | x & 15`, the column of (x, z). */
  function ColumnIndex(x: int, z: int): (i: int)
    ensures 0 <= i < Columns
    ensures i % 16 == x % 16 && i / 16 == z % 16
  {
    var i := (z % 16) * 16 + x % 16;
    DivModUnique(i, 16, z % 16, x % 16);
    i
  }

  /** Two columns coincide exactly when x and z agree modulo 16. */
  lemma ColumnIndexInjective(x: int, z: int, x': int, z': int)
    ensures ColumnIndex(x, z) == ColumnIndex(x', z') <==> x % 16 == x' % 16 && z % 16 == z' % 16
  {
  }

  /** `getBiome(x, z)`: the raw biome id read at `(x & 0xf) << 4 | z & 0xf`,
      which is the column index of (z, x): the coordinates are swapped with
      respect to `setBiome`.  Mapping the id to a biome is not modelled. */
  function GetBiome(c: Chunk, x: int, z: int): (b: int8)
    requires Valid(c)
    ensures b == c.biomes[ColumnIndex(z, x)]
  {
    var i := (x % 16) * 16 + z % 16;
    DivModUnique(i, 16, x % 16, z % 16);
    c.biomes[i]
  }

  /** `setBiome(x, z, id)`: writes the column index of (x, z). */
  function SetBiome(c: Chunk, x: int, z: int, id: int8): (r: Chunk)
    requires Valid(c)
    ensures Valid(r)
    ensures r.biomes[ColumnIndex(x, z)] == id
    ensures forall i | 0 <= i < Columns && i != ColumnIndex(x, z) :: r.biomes[i] == c.biomes[i]
    ensures r == c.(biomes := r.biomes)
  {
    c.(biomes := c.biomes[ColumnIndex(x, z) := id])
  }

  /** What `setBiome` wrote is what `getBiome` reads with the coordinates
      swapped. */
  lemma BiomeTransposed(c: Chunk, x: int, z: int, id: int8)
    requires Valid(c)
    ensures GetBiome(SetBiome(c, x, z, id), z, x) == id
  {
  }

  /** Reading with the same coordinates sees the write only on the diagonal:
      after setting column (1, 0) of an all-zero chunk to 5, `getBiome(1, 0)`
      still reads 0. */
  lemma BiomeReadBackFails()
    ensures var c := Chunk(0, 0, [], seq(Columns, _ => 0), seq(Columns, _ => 0), 0, true, 0, [], [], []);
      Valid(c) && GetBiome(SetBiome(c, 1, 0, 5), 1, 0) == 0
  {
    var c := Chunk(0, 0, [], seq(Columns, _ => 0), seq(Columns, _ => 0), 0, true, 0, [], [], []);
    assert ColumnIndex(1, 0) == 1 && ColumnIndex(0, 1) == 16;
    assert SetBiome(c, 1, 0, 5).biomes[16] == 0;
  }

  /** The biome lookup as the write side lays the array out. */
  function GetBiomeCorrected(c: Chunk, x: int, z: int): (b: int8)
    requires Valid(c)
  {
    c.biomes[ColumnIndex(x, z)]
  }

  /** With the corrected lookup a write is read back at the same coordinates
      and nowhere else. */
  lemma BiomeGetAfterSet(c: Chunk, x: int, z: int, id: int8, x': int, z': int)
    requires Valid(c)
    ensures GetBiomeCorrected(SetBiome(c, x, z, id), x', z') ==
      if x % 16 == x' % 16 && z % 16 == z' % 16 then id else GetBiomeCorrected(c, x', z')
  {
    ColumnIndexInjective(x, z, x', z');
  }

  /** `getHeight(x, z)`: the stored height map entry, whether or not it is
      up to date. */
  function GetHeight(c: Chunk, x: int, z: int): int32
    requires Valid(c)
  {
    c.heightMap[ColumnIndex(x, z)]
  }

  /** `setHeight(x, z, h)`: only the height map changes. */
  function SetHeight(c: Chunk, x: int, z: int, h: int32): (r: Chunk)
    requires Valid(c)
    ensures Valid(r) && r == c.(heightMap := r.heightMap)
    ensures GetHeight(r, x, z) == h
  {
    c.(heightMap := c.heightMap[ColumnIndex(x, z) := h])
  }

  /** Reading any column after `setHeight`. */
  lemma HeightGetAfterSet(c: Chunk, x: int, z: int, h: int32, x': int, z': int)
    requires Valid(c)
    ensures GetHeight(SetHeight(c, x, z, h), x', z') ==
      if x % 16 == x' % 16 && z % 16 == z' % 16 then h else GetHeight(c, x', z')
  {
    ColumnIndexInjective(x, z, x', z');
  }

  // ---------------------------------------------------------------------
  // Blocks and light

  /** `getChunkSection(i)`; Java asserts the index is in range. */
  function GetChunkSection(c: Chunk, i: int): (s: Sections.Section)
    requires Valid(c) && 0 <= i < |c.sections|
    ensures Sections.Valid(s) && s.chunkY == i
  {
    c.sections[i]
  }

  /** The block id at world height y, read from section `y >> 4`. */
  function BlockIdAt(c: Chunk, x: int, y: int, z: int): int16
    requires Valid(c) && 0 <= y / 16 < |c.sections|
  {
    Sections.GetBlockId(c.sections[y / 16], x, y, z)
  }

  /** `setBlock(x, y, z, id, data)`: delegates to section `y >> 4` (which
      must exist), which uses the low four bits of y. */
  function SetBlock(c: Chunk, x: int, y: int, z: int, id: int16, data: int8): (r: Chunk)
    requires Valid(c) && 0 <= y / 16 < |c.sections|
    ensures Valid(r) && |r.sections| == |c.sections|
    ensures BlockIdAt(r, x, y, z) == id
    ensures Sections.GetBlockData(r.sections[y / 16], x, y, z) == data
    ensures forall i | 0 <= i < |c.sections| && i != y / 16 :: r.sections[i] == c.sections[i]
    ensures r == c.(sections := r.sections)
  {
    var k := y / 16;
    c.(sections := c.sections[k := Sections.SetBlock(c.sections[k], x, y, z, id, data)])
  }

  /** Reading any block after `setBlock`: the new id at the written block,
      the old one at every other height or column. */
  lemma SetBlockThenGet(c: Chunk, x: int, y: int, z: int, id: int16, data: int8, x': int, y': int, z': int)
    requires Valid(c) && 0 <= y / 16 < |c.sections| && 0 <= y' / 16 < |c.sections|
    ensures BlockIdAt(SetBlock(c, x, y, z, id, data), x', y', z') ==
      if x % 16 == x' % 16 && y == y' && z % 16 == z' % 16 then id else BlockIdAt(c, x', y', z')
  {
    var r := SetBlock(c, x, y, z, id, data);
    if y / 16 == y' / 16 {
      Sections.SetBlockThenGet(c.sections[y / 16], x, y, z, id, data, x', y', z');
      assert y % 16 == y' % 16 <==> y == y';
    }
  }

  /** `fullbright`: every section at full sky light. */
  function Fullbright(c: Chunk): (r: Chunk)
    requires Valid(c)
    ensures Valid(r) && |r.sections| == |c.sections| && r == c.(sections := r.sections)
    ensures forall i | 0 <= i < |r.sections| :: r.sections[i] == Sections.Fullbright(c.sections[i])
  {
    c.(sections := seq(|c.sections|, i requires 0 <= i < |c.sections| => Sections.Fullbright(c.sections[i])))
  }

  // ---------------------------------------------------------------------
  // Height map

  /** The block at world height y of column (x, z) has non-zero opacity. */
  predicate OpaqueAt(c: Chunk, l: Lighters.Lighter, x: int, y: int, z: int)
    requires Valid(c) && 0 <= y < 16 * |c.sections|
  {
    Sections.Opaque(c.sections[y / 16], l, x, y, z)
  }

  /** `h` is one above the highest opaque block of the column, or 0 when
      every block of the column lets light through. */
  predicate IsColumnHeight(c: Chunk, l: Lighters.Lighter, x: int, z: int, h: int)
    requires Valid(c)
  {
    ScanHeight(c, l, x, z, |c.sections| - 1, h)
  }

  /** A column has one height. */
  lemma ColumnHeightUnique(c: Chunk, l: Lighters.Lighter, x: int, z: int, h: int, h': int)
    requires Valid(c)
    requires IsColumnHeight(c, l, x, z, h) && IsColumnHeight(c, l, x, z, h')
    ensures h == h'
  {
    if h > 0 {
      assert OpaqueAt(c, l, x, h - 1, z);
    }
    if h' > 0 {
      assert OpaqueAt(c, l, x, h' - 1, z);
    }
  }

  /** The section-relative height y of section `sy` is world height
      `16 * sy + y`. */
  lemma OpaqueInSection(c: Chunk, l: Lighters.Lighter, x: int, z: int, sy: int, y: int)
    requires Valid(c) && 0 <= sy < |c.sections| && 0 <= y < 16
    ensures OpaqueAt(c, l, x, 16 * sy + y, z) <==> Sections.Opaque(c.sections[sy], l, x, y, z)
  {
    DivModUnique(16 * sy + y, 16, sy, y);
    Sections.IndexInjective(x, 16 * sy + y, z, x, y, z);
  }

  /** The inner loop of `calculateHeightMap`: sections `top` down to 0 are
      searched for the highest opaque block of the column. */
  function ScanColumn(c: Chunk, l: Lighters.Lighter, x: int, z: int, top: int): (h: int)
    requires Valid(c) && -1 <= top < |c.sections|
    ensures 0 <= h <= 16 * (top + 1)
    decreases top + 1
  {
    if top < 0 then 0
    else
      var y := Sections.GetHighestBlock(c.sections[top], l, x, z);
      if y != -1 then 16 * top + y + 1
      else ScanColumn(c, l, x, z, top - 1)
  }

  /** `h` is one above the highest opaque block of the column among
      sections 0 to `top`, or 0 when those let all light through. */
  predicate ScanHeight(c: Chunk, l: Lighters.Lighter, x: int, z: int, top: int, h: int)
    requires Valid(c) && -1 <= top < |c.sections|
  {
    0 <= h <= 16 * (top + 1) &&
    (h > 0 ==> OpaqueAt(c, l, x, h - 1, z)) &&
    forall y | h <= y < 16 * (top + 1) :: !OpaqueAt(c, l, x, y, z)
  }

  /** The scan stops at the highest opaque block of the sections it
      searched. */
  lemma {:induction false} ScanColumnFinds(c: Chunk, l: Lighters.Lighter, x: int, z: int, top: int)
    requires Valid(c) && -1 <= top < |c.sections|
    ensures ScanHeight(c, l, x, z, top, ScanColumn(c, l, x, z, top))
    decreases top + 1
  {
    if top >= 0 {
      var y := Sections.GetHighestBlock(c.sections[top], l, x, z);
      SectionScan(c, l, x, z, top, y);
      if y != -1 {
        assert ScanColumn(c, l, x, z, top) == 16 * top + y + 1;
      } else {
        ScanColumnFinds(c, l, x, z, top - 1);
        ScanBelow(c, l, x, z, top, ScanColumn(c, l, x, z, top - 1));
      }
    }
  }

  /** A section without opaque blocks in the column passes the height found
      below it upwards. */
  lemma ScanBelow(c: Chunk, l: Lighters.Lighter, x: int, z: int, top: int, h: int)
    requires Valid(c) && 0 <= top < |c.sections|
    requires ScanHeight(c, l, x, z, top - 1, h)
    requires forall w | 16 * top <= w < 16 * (top + 1) :: !OpaqueAt(c, l, x, w, z)
    ensures ScanHeight(c, l, x, z, top, h)
  {
  }

  /** What `getHighestBlock` found in section `top`, in world heights. */
  lemma SectionScan(c: Chunk, l: Lighters.Lighter, x: int, z: int, top: int, y: int)
    requires Valid(c) && 0 <= top < |c.sections| && -1 <= y <= 15
    requires y >= 0 ==> Sections.Opaque(c.sections[top], l, x, y, z)
    requires forall y' | y < y' <= 15 :: !Sections.Opaque(c.sections[top], l, x, y', z)
    ensures y >= 0 ==> OpaqueAt(c, l, x, 16 * top + y, z)
    ensures forall w | 16 * top + y + 1 <= w < 16 * (top + 1) :: !OpaqueAt(c, l, x, w, z)
  {
    if y >= 0 {
      OpaqueInSection(c, l, x, z, top, y);
    }
    forall w | 16 * top + y + 1 <= w < 16 * (top + 1) ensures !OpaqueAt(c, l, x, w, z) {
      OpaqueInSection(c, l, x, z, top, w - 16 * top);
    }
  }

  /** The scan result of every column, indexed as the height map is. */
  function HeightColumns(c: Chunk, l: Lighters.Lighter): (hm: seq<int32>)
    requires Valid(c)
    ensures |hm| == Columns
    ensures forall i | 0 <= i < Columns :: hm[i] == ScanColumn(c, l, i % 16, i / 16, |c.sections| - 1)
  {
    seq(Columns, i requires 0 <= i < Columns => ScanColumn(c, l, i % 16, i / 16, |c.sections| - 1) as int32)
  }

  /** Column (x, z) of the scan results holds the height of that column. */
  lemma HeightColumn(c: Chunk, l: Lighters.Lighter, x: int, z: int)
    requires Valid(c) && 0 <= x < 16 && 0 <= z < 16
    ensures IsColumnHeight(c, l, x, z, HeightColumns(c, l)[ColumnIndex(x, z)])
  {
    var i := ColumnIndex(x, z);
    DivModUnique(i, 16, z, x);
    assert HeightColumns(c, l)[i] == ScanColumn(c, l, x, z, |c.sections| - 1);
    ScanColumnFinds(c, l, x, z, |c.sections| - 1);
  }

  /** `calculateHeightMap`: every column gets its height; nothing else
      changes. */
  function CalculateHeightMap(c: Chunk, l: Lighters.Lighter): (r: Chunk)
    requires Valid(c)
    ensures Valid(r) && r == c.(heightMap := r.heightMap)
    ensures forall x, z | 0 <= x < 16 && 0 <= z < 16 :: IsColumnHeight(c, l, x, z, GetHeight(r, x, z))
  {
    var r := c.(heightMap := HeightColumns(c, l));
    forall x, z | 0 <= x < 16 && 0 <= z < 16 ensures IsColumnHeight(c, l, x, z, GetHeight(r, x, z)) {
      HeightColumn(c, l, x, z);
    }
    r
  }
}
