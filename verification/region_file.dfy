/** The region files of a world: the chunks of one 32 by 32 region written
    as compressed chunk documents, and read back into a world.  Compression
    is a parameter: the model takes a codec, and states what it needs of it
    (that inflating undoes deflating). */
module RegionFiles {
  import opened Bytes
  import opened Wrappers
  import opened Bits
  import opened WorldProps
  import Nbt
  import NbtRoundTrip
  import Sections
  import Chunks
  import ChunkCodec
  import Worlds
  import Regions
  import RegionRoundTrip

  /** Deflate and inflate; inflating fails on data that is not a deflate
      stream. */
  datatype Codec = Codec(compress: seq<byte> -> seq<byte>, decompress: seq<byte> -> Option<seq<byte>>)

  /** Inflating gives back what was deflated. */
  ghost predicate Inverse(k: Codec)
  {
    forall raw :: k.decompress(k.compress(raw)) == Some(raw)
  }

  // ---------------------------------------------------------------------
  // Coordinates

  /** `x * 32 | o`: the chunk coordinate of offset `o` in region `x`, with
      Java's 32-bit multiplication. */
  function RegionCoord(x: int32, o: nat): (c: int32)
    requires o < 32
  {
    JavaOr(ToInt32(x * 32), o)
  }

  /** Multiplying by 32 and wrapping at 32 bits keeps the low 27 bits of
      the factor, shifted left by five: the low five bits are clear. */
  lemma Mul32Wrap(x: int)
    ensures Unsigned(ToInt32(x * 32), 0x1_0000_0000) == 32 * (x % 0x800_0000)
    ensures ToInt32(x * 32) % 32 == 0
  {
    var m := 0x1_0000_0000;
    var q := x / 0x800_0000;
    var r := x % 0x800_0000;
    assert x * 32 == m * q + 32 * r;
    assert (x * 32) % m == 32 * r;
    Worlds.UnsignedOfSigned(32 * r, m);
    assert ToInt32(x * 32) == 32 * r || ToInt32(x * 32) == 32 * (r - 0x800_0000);
  }

  /** The multiplication's low five bits are clear, so the or adds the
      offset, and the offset is the coordinate's low five bits. */
  lemma RegionCoordSum(x: int32, o: nat)
    requires o < 32
    ensures RegionCoord(x, o) == ToInt32(x * 32) + o
    ensures RegionCoord(x, o) % 32 == o
  {
    var h := ToInt32(x * 32);
    Mul32Wrap(x);
    OrLowBits(h, o);
    LowBitsAdd(h, o);
  }

  /** Or-ing less than 32 into a multiple of 32 adds it. */
  lemma OrLowBits(h: int32, o: nat)
    requires h % 32 == 0 && o < 32
    ensures JavaOr(h, o) == h + o
  {
    var m := 0x1_0000_0000;
    var u := Unsigned(h, m);
    assert u == h || u == h + m;
    var q := u / 32;
    assert u == 32 * q;
    assert Pow2(5) == 32;
    OrDisjoint(q, o, 5);
    assert q * Pow2(5) == u;
    assert Unsigned(o, m) == o;
    assert h + o < m / 2 by {
      LowBitsAdd(h, o);
    }
  }

  /** Adding less than 32 to a multiple of 32 sets the low five bits. */
  lemma LowBitsAdd(h: int, o: int)
    requires h % 32 == 0 && 0 <= o < 32
    ensures (h + o) % 32 == o
  {
    var q := h / 32;
    assert h + o == 32 * q + o;
  }

  /** The regions whose every chunk coordinate is `32 * x + o` without
      wrapping: all regions of chunks whose block coordinates are ints. */
  predicate InRange(x: int)
  {
    -0x400_0000 <= x < 0x400_0000
  }

  /** In range, a region's chunk coordinates are exactly the 32 values
      `32 * x + o`, so the region of a chunk is its coordinate shifted right
      by five. */
  lemma RegionCoordExact(x: int32, o: nat)
    requires o < 32 && InRange(x)
    ensures RegionCoord(x, o) == 32 * x + o
    ensures RegionCoord(x, o) / 32 == x
  {
    RegionCoordSum(x, o);
  }

  /** Every chunk coordinate lies in the region `c >> 5` at offset `c & 31`. */
  lemma ChunkInRegion(c: int32)
    ensures InRange(c / 32)
    ensures RegionCoord(c / 32, c % 32) == c
  {
    RegionCoordExact(c / 32, c % 32);
  }

  /** Distinct offsets of one region are distinct coordinates. */
  lemma RegionCoordInjective(x: int32, o: nat, o': nat)
    requires o < 32 && o' < 32
    ensures RegionCoord(x, o) == RegionCoord(x, o') <==> o == o'
  {
    RegionCoordSum(x, o);
    RegionCoordSum(x, o');
  }

  // ---------------------------------------------------------------------
  // Writer

  /** The chunk of slot `i` of region (x, z): offset `i & 31` in x and
      `i >> 5` in z, as `getRegionIndex` numbers the slots. */
  function RegionChunk(w: Worlds.World, x: int32, z: int32, i: nat): (r: Option<Chunks.Chunk>)
    requires i < Regions.SlotCount
    ensures r.None? <==> Worlds.ChunkKey(RegionCoord(x, i % 32), RegionCoord(z, i / 32)) !in w.chunks
  {
    Worlds.GetChunkIfExists(w, RegionCoord(x, i % 32), RegionCoord(z, i / 32))
  }

  /** The region's payloads all fit the writer's int arithmetic. */
  predicate Fits(w: Worlds.World, x: int32, z: int32, pack: Chunks.Chunk -> seq<byte>)
  {
    forall i | 0 <= i < Regions.SlotCount :: SlotFits(w, x, z, pack, i)
  }

  /** The payload of slot `i`, if any, fits the writer's int arithmetic. */
  predicate SlotFits(w: Worlds.World, x: int32, z: int32, pack: Chunks.Chunk -> seq<byte>, i: nat)
    requires i < Regions.SlotCount
  {
    RegionChunk(w, x, z, i).Some? ==> |pack(RegionChunk(w, x, z, i).value)| <= Regions.MaxPayload
  }

  /** `Fits`, slot by slot. */
  lemma FitsEach(w: Worlds.World, x: int32, z: int32, pack: Chunks.Chunk -> seq<byte>)
    requires Fits(w, x, z, pack)
    ensures forall i | 0 <= i < Regions.SlotCount && RegionChunk(w, x, z, i).Some? ::
      |pack(RegionChunk(w, x, z, i).value)| <= Regions.MaxPayload
  {
    forall i | 0 <= i < Regions.SlotCount && RegionChunk(w, x, z, i).Some?
      ensures |pack(RegionChunk(w, x, z, i).value)| <= Regions.MaxPayload
    {
      assert SlotFits(w, x, z, pack, i);
    }
  }

  /** The slot of one chunk: its payload and its last-update time. */
  function SlotOf(r: Option<Chunks.Chunk>, pack: Chunks.Chunk -> seq<byte>): Option<Regions.Stored>
  {
    match r
    case None => None
    case Some(c) => Some(Regions.Stored(pack(c), c.lastUpdated))
  }

  /** The 1024 slots of region (x, z), with `pack` making a chunk's
      payload. */
  function SlotsWith(w: Worlds.World, x: int32, z: int32, pack: Chunks.Chunk -> seq<byte>)
    : (slots: seq<Option<Regions.Stored>>)
    requires Fits(w, x, z, pack)
    ensures Regions.Sized(slots)
    ensures forall i | 0 <= i < |slots| :: slots[i] == SlotOf(RegionChunk(w, x, z, i), pack)
  {
    FitsEach(w, x, z, pack);
    seq(Regions.SlotCount, i requires 0 <= i < Regions.SlotCount => SlotOf(RegionChunk(w, x, z, i), pack))
  }

  /** A chunk whose document the NBT writer can encode: well formed, with
      homogeneous lists and short enough strings. */
  predicate Encodable(c: Chunks.Chunk)
  {
    Chunks.Valid(c) && ChunkCodec.ListsIntact(c) && Nbt.EntryWellFormed(ChunkCodec.Serialize(c))
  }

  /** `NBT.serializeArray(chunk.serialize())`; the writer is only given
      encodable chunks, so the empty document stands for nothing it
      writes. */
  function Document(c: Chunks.Chunk): seq<byte>
  {
    if Encodable(c) then Nbt.SerializeArray(ChunkCodec.Serialize(c)) else []
  }

  /** `compress()` of the chunk's document. */
  function Packer(k: Codec): Chunks.Chunk -> seq<byte>
  {
    c => k.compress(Document(c))
  }

  /** Every chunk of the region can be stored: its document encodes and the
      compressed document is short enough for the writer's int arithmetic. */
  predicate Writable(w: Worlds.World, x: int32, z: int32, k: Codec)
  {
    Fits(w, x, z, Packer(k)) && forall i | 0 <= i < Regions.SlotCount :: SlotEncodable(w, x, z, i)
  }

  /** The chunk of slot `i`, if any, is encodable. */
  predicate SlotEncodable(w: Worlds.World, x: int32, z: int32, i: nat)
    requires i < Regions.SlotCount
  {
    RegionChunk(w, x, z, i).Some? ==> Encodable(RegionChunk(w, x, z, i).value)
  }

  /** The slots `writeRegionFile` fills. */
  function Slots(w: Worlds.World, x: int32, z: int32, k: Codec): (slots: seq<Option<Regions.Stored>>)
    requires Writable(w, x, z, k)
    ensures Regions.Sized(slots)
    ensures forall i | 0 <= i < |slots| ::
      (slots[i].None? <==> RegionChunk(w, x, z, i).None?) &&
      (slots[i].Some? ==> slots[i].value.lastUpdated == RegionChunk(w, x, z, i).value.lastUpdated)
  {
    SlotsWith(w, x, z, Packer(k))
  }

  /** `writeRegionFile(x, z, output)`: the bytes written. */
  function WriteRegion(w: Worlds.World, x: int32, z: int32, k: Codec): (out: seq<byte>)
    requires Writable(w, x, z, k)
    ensures |out| % Regions.SectorSize == 0 && |out| >= 2 * Regions.SectorSize
  {
    Regions.Layout(Slots(w, x, z, k))
  }

  /** With no chunk in the region the file is just its two header
      sectors. */
  lemma EmptyRegion(w: Worlds.World, x: int32, z: int32, k: Codec)
    requires forall i | 0 <= i < Regions.SlotCount :: RegionChunk(w, x, z, i).None?
    ensures Writable(w, x, z, k) && |WriteRegion(w, x, z, k)| == 2 * Regions.SectorSize
  {
    var slots := Slots(w, x, z, k);
    UsedNone(slots);
  }

  lemma {:induction false} UsedNone(slots: seq<Option<Regions.Stored>>)
    requires forall i | 0 <= i < |slots| :: slots[i].None?
    ensures Regions.Used(slots) == 0
  {
    if |slots| > 0 {
      assert forall i | 0 <= i < |slots[1..]| :: slots[1..][i] == slots[i + 1];
      UsedNone(slots[1..]);
    }
  }

  // ---------------------------------------------------------------------
  // Reader

  /** `decompress`, `NBT.deserializeArray` and `Chunk.deserialize` in a row;
      data that does not inflate is corrupt. */
  function LoadChunk(p: WorldProperties, k: Codec, data: seq<byte>): (r: Result<Chunks.Chunk>)
    ensures r.Ok? ==> Chunks.Valid(r.value) && |r.value.sections| == HeightInChunkSections(p)
    ensures k.decompress(data).None? ==> r == Err(CorruptData)
  {
    match k.decompress(data)
    case None => Err(CorruptData)
    case Some(raw) =>
      var n :- Nbt.DeserializeArray(raw);
      ChunkCodec.Deserialize(p, n)
  }

  /** The decoder the reader uses in a world of properties `p`. */
  function Loader(p: WorldProperties, k: Codec): seq<byte> -> Result<Chunks.Chunk>
  {
    data => LoadChunk(p, k, data)
  }

  /** Every section holds 12-bit ids and 4-bit values, as the section
      document stores them. */
  predicate StorableSections(c: Chunks.Chunk)
  {
    forall j | 0 <= j < |c.sections| :: Sections.Storable(c.sections[j])
  }

  /** A stored chunk loads back as its normalised form. */
  lemma LoadPayload(p: WorldProperties, k: Codec, c: Chunks.Chunk)
    requires Inverse(k) && Encodable(c)
    requires |c.sections| == HeightInChunkSections(p) && StorableSections(c)
    ensures Loader(p, k)(Packer(k)(c)) == Ok(ChunkCodec.Normalize(c))
  {
    var n := ChunkCodec.Serialize(c);
    assert k.decompress(k.compress(Document(c))) == Some(Nbt.SerializeArray(n));
    NbtRoundTrip.ArrayRoundTrip(n);
    ChunkCodec.RoundTrip(p, c);
  }

  /** `readRegionFile(x, z, input)` as written: slot `i` is stored under
      `getIndex(i & 31, i >> 5)`, its offset within the region, whatever
      the region's coordinates. */
  function LocalKey(): nat -> int64
  {
    i => Worlds.ChunkKey(i % 32, (i / 32) % 32)
  }

  function ReadRegion(w: Worlds.World, x: int32, z: int32, k: Codec, s: seq<byte>): (r: Regions.Loaded)
    ensures r.world.properties == w.properties
    ensures w.chunks.Keys <= r.world.chunks.Keys
    ensures r.world.chunks.Keys <= w.chunks.Keys + set i | 0 <= i < Regions.SlotCount :: LocalKey()(i)
    ensures forall key | key in w.chunks && key !in (set i | 0 <= i < Regions.SlotCount :: LocalKey()(i)) ::
      r.world.chunks[key] == w.chunks[key]
  {
    Regions.ReadRegionKeys(w, s, Loader(w.properties, k), LocalKey());
    Regions.ReadRegionKeeps(w, s, Loader(w.properties, k), LocalKey());
    Regions.ReadRegionWith(w, s, Loader(w.properties, k), LocalKey())
  }

  /** The key of slot `i` of region (x, z): the chunk's own coordinates. */
  function RegionKey(x: int32, z: int32): nat -> int64
  {
    i => Worlds.ChunkKey(RegionCoord(x, i % 32), RegionCoord(z, (i / 32) % 32))
  }

  /** The reader with each chunk stored under its own coordinates, as the
      writer took it from. */
  function ReadRegionAt(w: Worlds.World, x: int32, z: int32, k: Codec, s: seq<byte>): (r: Regions.Loaded)
    ensures r.world.properties == w.properties
    ensures w.chunks.Keys <= r.world.chunks.Keys
    ensures r.world.chunks.Keys <= w.chunks.Keys + set i | 0 <= i < Regions.SlotCount :: RegionKey(x, z)(i)
    ensures forall key | key in w.chunks && key !in (set i | 0 <= i < Regions.SlotCount :: RegionKey(x, z)(i)) ::
      r.world.chunks[key] == w.chunks[key]
  {
    Regions.ReadRegionKeys(w, s, Loader(w.properties, k), RegionKey(x, z));
    Regions.ReadRegionKeeps(w, s, Loader(w.properties, k), RegionKey(x, z));
    Regions.ReadRegionWith(w, s, Loader(w.properties, k), RegionKey(x, z))
  }

  // ---------------------------------------------------------------------
  // Round trip

  /** Slot numbers have five bits of row. */
  lemma RowBelow(i: nat)
    requires i < Regions.SlotCount
    ensures (i / 32) % 32 == i / 32
  {
  }

  /** Distinct slots differ in one of their offsets. */
  lemma SlotOffsets(a: nat, b: nat)
    requires a < b < Regions.SlotCount
    ensures a % 32 != b % 32 || (a / 32) % 32 != (b / 32) % 32
  {
  }

  /** Two distinct slots of a region have distinct keys. */
  lemma RegionKeyPair(x: int32, z: int32, a: nat, b: nat)
    requires a < b < Regions.SlotCount
    ensures RegionKey(x, z)(a) != RegionKey(x, z)(b)
  {
    var oa, ob := (a / 32) % 32, (b / 32) % 32;
    SlotOffsets(a, b);
    RegionCoordInjective(x, a % 32, b % 32);
    RegionCoordInjective(z, oa, ob);
    Worlds.ChunkKeyInjective(RegionCoord(x, a % 32), RegionCoord(z, oa),
                             RegionCoord(x, b % 32), RegionCoord(z, ob));
  }

  /** Distinct slots of a region have distinct keys. */
  lemma RegionKeysDistinct(x: int32, z: int32)
    ensures forall a, b | 0 <= a < b < Regions.SlotCount :: RegionKey(x, z)(a) != RegionKey(x, z)(b)
  {
    forall a, b | 0 <= a < b < Regions.SlotCount ensures RegionKey(x, z)(a) != RegionKey(x, z)(b) {
      RegionKeyPair(x, z, a, b);
    }
  }

  /** Distinct slots have distinct offsets, so distinct local keys. */
  lemma LocalKeysDistinct()
    ensures forall a, b | 0 <= a < b < Regions.SlotCount :: LocalKey()(a) != LocalKey()(b)
  {
    forall a, b | 0 <= a < b < Regions.SlotCount ensures LocalKey()(a) != LocalKey()(b) {
      SlotOffsets(a, b);
      Worlds.ChunkKeyInjective(a % 32, (a / 32) % 32, b % 32, (b / 32) % 32);
    }
  }

  /** Write then read with any payload maker and decoder and any distinct
      slot keys: every chunk of the region is stored under its slot's key
      as its payload decodes, and an empty slot's key is left as it was. */
  lemma ReadAfterWriteWith(w: Worlds.World, w0: Worlds.World, x: int32, z: int32,
                           pack: Chunks.Chunk -> seq<byte>, load: seq<byte> -> Result<Chunks.Chunk>,
                           key: nat -> int64, i: nat)
    requires Fits(w, x, z, pack) && RegionRoundTrip.FitsTable(SlotsWith(w, x, z, pack)) && i < Regions.SlotCount
    requires forall j | 0 <= j < Regions.SlotCount && RegionChunk(w, x, z, j).Some? ::
      load(pack(RegionChunk(w, x, z, j).value)).Ok?
    requires forall a, b | 0 <= a < b < Regions.SlotCount :: key(a) != key(b)
    ensures var r := Regions.ReadRegionWith(w0, Regions.Layout(SlotsWith(w, x, z, pack)), load, key);
      r.failure.None? &&
      match RegionChunk(w, x, z, i)
      case Some(c) => key(i) in r.world.chunks && r.world.chunks[key(i)] == load(pack(c)).value
      case None => (key(i) in r.world.chunks <==> key(i) in w0.chunks) &&
                   (key(i) in w0.chunks ==> r.world.chunks[key(i)] == w0.chunks[key(i)])
  {
    var slots := SlotsWith(w, x, z, pack);
    assert RegionRoundTrip.AllLoad(slots, load);
    RegionRoundTrip.LayoutLookup(w0, slots, load, key, i);
  }

  /** The region can be written and read back: its chunks are writable,
      hold storable sections, and fit the location table. */
  predicate RoundTrips(w: Worlds.World, x: int32, z: int32, k: Codec)
  {
    Writable(w, x, z, k) && RegionRoundTrip.FitsTable(Slots(w, x, z, k)) &&
    forall i | 0 <= i < Regions.SlotCount :: SlotStorable(w, x, z, i)
  }

  /** The chunk of slot `i`, if any, holds storable sections. */
  predicate SlotStorable(w: Worlds.World, x: int32, z: int32, i: nat)
    requires i < Regions.SlotCount
  {
    RegionChunk(w, x, z, i).Some? ==> StorableSections(RegionChunk(w, x, z, i).value)
  }

  /** Every chunk of a consistent world's region loads back as its
      normalised form. */
  lemma RegionLoads(w: Worlds.World, x: int32, z: int32, k: Codec)
    requires Worlds.Consistent(w) && RoundTrips(w, x, z, k) && Inverse(k)
    ensures forall j | 0 <= j < Regions.SlotCount && RegionChunk(w, x, z, j).Some? ::
      Loader(w.properties, k)(Packer(k)(RegionChunk(w, x, z, j).value)) ==
        Ok(ChunkCodec.Normalize(RegionChunk(w, x, z, j).value))
  {
    forall j | 0 <= j < Regions.SlotCount && RegionChunk(w, x, z, j).Some?
      ensures Loader(w.properties, k)(Packer(k)(RegionChunk(w, x, z, j).value)) ==
        Ok(ChunkCodec.Normalize(RegionChunk(w, x, z, j).value))
    {
      SlotLoads(w, x, z, k, j);
    }
  }

  /** The chunk of one slot loads back as its normalised form. */
  lemma SlotLoads(w: Worlds.World, x: int32, z: int32, k: Codec, j: nat)
    requires Worlds.Consistent(w) && Inverse(k) && j < Regions.SlotCount
    requires SlotEncodable(w, x, z, j) && SlotStorable(w, x, z, j) && RegionChunk(w, x, z, j).Some?
    ensures Loader(w.properties, k)(Packer(k)(RegionChunk(w, x, z, j).value)) ==
      Ok(ChunkCodec.Normalize(RegionChunk(w, x, z, j).value))
  {
    var c := RegionChunk(w, x, z, j).value;
    assert c == w.chunks[Worlds.ChunkKey(RegionCoord(x, j % 32), RegionCoord(z, j / 32))];
    LoadPayload(w.properties, k, c);
  }

  /** Writing region (x, z) of a consistent world and reading the file into
      a world of the same properties fails nowhere, and leaves at each of
      the region's coordinates the normalised chunk that was there, or what
      the target world had when there was none. */
  lemma ReadAfterWrite(w: Worlds.World, w0: Worlds.World, x: int32, z: int32, k: Codec, i: nat)
    requires Worlds.Consistent(w) && RoundTrips(w, x, z, k) && Inverse(k)
    requires w0.properties == w.properties && i < Regions.SlotCount
    ensures var r := ReadRegionAt(w0, x, z, k, WriteRegion(w, x, z, k));
      r.failure.None? &&
      Worlds.GetChunkIfExists(r.world, RegionCoord(x, i % 32), RegionCoord(z, i / 32)) ==
        match RegionChunk(w, x, z, i)
        case Some(c) => Some(ChunkCodec.Normalize(c))
        case None => Worlds.GetChunkIfExists(w0, RegionCoord(x, i % 32), RegionCoord(z, i / 32))
  {
    RegionLoads(w, x, z, k);
    RegionKeysDistinct(x, z);
    ReadAfterWriteWith(w, w0, x, z, Packer(k), Loader(w.properties, k), RegionKey(x, z), i);
    RowBelow(i);
  }

  /** Reading region (x, z), whatever the file holds, leaves every chunk
      outside the region as it was. */
  lemma ReadRegionAtKeeps(w: Worlds.World, x: int32, z: int32, k: Codec, s: seq<byte>, cx: int32, cz: int32)
    requires InRange(x) && InRange(z) && (cx / 32 != x || cz / 32 != z)
    ensures Worlds.GetChunkIfExists(ReadRegionAt(w, x, z, k, s).world, cx, cz) ==
      Worlds.GetChunkIfExists(w, cx, cz)
  {
    var key := RegionKey(x, z);
    forall i | 0 <= i < Regions.SlotCount ensures key(i) != Worlds.ChunkKey(cx, cz) {
      RegionCoordExact(x, i % 32);
      RegionCoordExact(z, (i / 32) % 32);
      Worlds.ChunkKeyInjective(RegionCoord(x, i % 32), RegionCoord(z, (i / 32) % 32), cx, cz);
    }
    Regions.ReadRegionOther(w, s, Loader(w.properties, k), key, Worlds.ChunkKey(cx, cz));
  }

  /** Outside region (0, 0) no chunk's own key is a local key. */
  lemma OwnKeyNotLocal(x: int32, z: int32, i: nat)
    requires InRange(x) && InRange(z) && (x != 0 || z != 0) && i < Regions.SlotCount
    ensures forall j | 0 <= j < Regions.SlotCount ::
      LocalKey()(j) != Worlds.ChunkKey(RegionCoord(x, i % 32), RegionCoord(z, i / 32))
  {
    RegionCoordExact(x, i % 32);
    RegionCoordExact(z, i / 32);
    forall j | 0 <= j < Regions.SlotCount
      ensures LocalKey()(j) != Worlds.ChunkKey(RegionCoord(x, i % 32), RegionCoord(z, i / 32))
    {
      Worlds.ChunkKeyInjective(j % 32, (j / 32) % 32, RegionCoord(x, i % 32), RegionCoord(z, i / 32));
    }
  }

  /** After a read `r` of region (x, z), the chunk `c` of slot `i` is
      found, normalised, at the slot's offset coordinates and nothing is
      found at its own. */
  predicate Misplaced(r: Regions.Loaded, x: int32, z: int32, i: nat, c: Chunks.Chunk)
    requires i < Regions.SlotCount && Chunks.Valid(c)
  {
    r.failure.None? &&
    Worlds.GetChunkIfExists(r.world, i % 32, i / 32) == Some(ChunkCodec.Normalize(c)) &&
    Worlds.GetChunkIfExists(r.world, RegionCoord(x, i % 32), RegionCoord(z, i / 32)).None?
  }

  /** Region (x, z) written and read into a new world by the reader as
      written. */
  function ReadBack(w: Worlds.World, x: int32, z: int32, k: Codec): Regions.Loaded
    requires Writable(w, x, z, k)
  {
    ReadRegion(Worlds.NewWorld(w.properties), x, z, k, WriteRegion(w, x, z, k))
  }

  /** The reader as written stores slot `i` at its offset in the region:
      this happens for every stored chunk of any region but (0, 0). */
  lemma ReadRegionMisplaces(w: Worlds.World, x: int32, z: int32, k: Codec, i: nat)
    requires Worlds.Consistent(w) && RoundTrips(w, x, z, k) && Inverse(k) && i < Regions.SlotCount
    requires InRange(x) && InRange(z) && (x != 0 || z != 0) && RegionChunk(w, x, z, i).Some?
    ensures Misplaced(ReadBack(w, x, z, k), x, z, i, RegionChunk(w, x, z, i).value)
  {
    var w0 := Worlds.NewWorld(w.properties);
    var load := Loader(w.properties, k);
    RegionLoads(w, x, z, k);
    LocalKeysDistinct();
    ReadAfterWriteWith(w, w0, x, z, Packer(k), load, LocalKey(), i);
    RowBelow(i);
    OwnKeyNotLocal(x, z, i);
    var own := Worlds.ChunkKey(RegionCoord(x, i % 32), RegionCoord(z, i / 32));
    Regions.ReadRegionOther(w0, WriteRegion(w, x, z, k), load, LocalKey(), own);
    assert own !in w0.chunks;
  }

  /** The smallest instance: a chunk at (32, 0), in region (1, 0), is read
      back at (0, 0). */
  lemma ReadRegionMisplacesExample(w: Worlds.World, k: Codec)
    requires Worlds.Consistent(w) && RoundTrips(w, 1, 0, k) && Inverse(k)
    requires Worlds.ChunkKey(32, 0) in w.chunks
    ensures var r := ReadBack(w, 1, 0, k);
      Worlds.GetChunkIfExists(r.world, 0, 0) == Some(ChunkCodec.Normalize(w.chunks[Worlds.ChunkKey(32, 0)])) &&
      Worlds.GetChunkIfExists(r.world, 32, 0).None?
  {
    RegionCoordExact(1, 0);
    RegionCoordExact(0, 0);
    ReadRegionMisplaces(w, 1, 0, k, 0);
  }
}
