/** One 16x16x16 cube of a chunk: block ids, block data and the two light
    fields, each a flat array of 4096 cells indexed y-major, then z, then x. */
module Sections {
  import opened Bytes
  import opened Wrappers
  import opened Tags
  import opened Compounds
  import opened Util
  import Lighters

  /** Cells in a section. */
  const Length := 4096

  /** The back-reference to the owning chunk is not modelled; `chunkY` is
      the section's vertical position in the chunk, in units of 16 blocks. */
  datatype Section = Section(
    chunkY: int8,
    blockIds: seq<int16>,
    blockData: seq<int8>,
    lightBlock: seq<int8>,
    lightSky: seq<int8>)

  /** Every array has exactly one entry per cell. */
  predicate Valid(s: Section)
  {
    |s.blockIds| == Length && |s.blockData| == Length &&
    |s.lightBlock| == Length && |s.lightSky| == Length
  }

  /** The cell values that survive serialisation: 12-bit block ids and
      4-bit data and light. */
  predicate Storable(s: Section)
  {
    Valid(s) &&
    (forall i | 0 <= i < Length :: 0 <= s.blockIds[i] < 4096) &&
    (forall i | 0 <= i < Length :: 0 <= s.blockData[i] < 16) &&
    (forall i | 0 <= i < Length :: 0 <= s.lightBlock[i] < 16) &&
    (forall i | 0 <= i < Length :: 0 <= s.lightSky[i] < 16)
  }

  function Zeros8(n: nat): (r: seq<int8>)
    ensures |r| == n && forall i | 0 <= i < n :: r[i] == 0
  {
    seq(n, _ => 0)
  }

  function Zeros16(n: nat): (r: seq<int16>)
    ensures |r| == n && forall i | 0 <= i < n :: r[i] == 0
  {
    seq(n, _ => 0)
  }

  /** The constructor: a section of air with no light. */
  function New(chunkY: int8): (s: Section)
    ensures Valid(s) && s.chunkY == chunkY
    ensures forall i | 0 <= i < Length ::
      s.blockIds[i] == 0 && s.blockData[i] == 0 && s.lightBlock[i] == 0 && s.lightSky[i] == 0
  {
    Section(chunkY, Zeros16(Length), Zeros8(Length), Zeros8(Length), Zeros8(Length))
  }

  // ---------------------------------------------------------------------
  // Cell index

  /** `getIndex`: `(y & 0xf) << 8 | (z & 0xf) << 4 | x & 0xf`.  The three
      fields occupy disjoint bits, so the `|` is a sum; `& 0xf` keeps the
      low four bits, which is Euclidean `% 16` also for negative values, so
      coordinates relative to any origin select the same cell. */
  function GetIndex(x: int, y: int, z: int): (i: int)
    ensures 0 <= i < Length
  {
    (y % 16) * 256 + (z % 16) * 16 + x % 16
  }

  /** The index holds x in its low four bits, then z, then y. */
  lemma IndexFields(x: int, y: int, z: int)
    ensures var i := GetIndex(x, y, z);
      i % 16 == x % 16 && (i / 16) % 16 == z % 16 && i / 256 == y % 16
  {
    var i := GetIndex(x, y, z);
    DivModUnique(i, 16, (y % 16) * 16 + z % 16, x % 16);
    DivModUnique((y % 16) * 16 + z % 16, 16, y % 16, z % 16);
    DivModUnique(i, 256, y % 16, (z % 16) * 16 + x % 16);
  }

  /** The coordinates of a cell within the section. */
  function CoordsOf(i: int): (c: (int, int, int))
    requires 0 <= i < Length
    ensures 0 <= c.0 < 16 && 0 <= c.1 < 16 && 0 <= c.2 < 16
  {
    (i % 16, i / 256, (i / 16) % 16)
  }

  /** Every cell has coordinates: `getIndex` is onto. */
  lemma IndexOfCoords(i: int)
    requires 0 <= i < Length
    ensures GetIndex(CoordsOf(i).0, CoordsOf(i).1, CoordsOf(i).2) == i
  {
    var c := CoordsOf(i);
    NibbleFixed(c.0);
    NibbleFixed(c.1);
    NibbleFixed(c.2);
    var q := i / 16;
    assert i == 16 * q + c.0;
    assert q == 16 * (q / 16) + c.2;
    DivModUnique(i, 256, q / 16, 16 * c.2 + c.0);
  }

  /** Two coordinate triples name the same cell exactly when they agree
      modulo 16 on every axis. */
  lemma IndexInjective(x: int, y: int, z: int, x': int, y': int, z': int)
    ensures GetIndex(x, y, z) == GetIndex(x', y', z') <==>
      x % 16 == x' % 16 && y % 16 == y' % 16 && z % 16 == z' % 16
  {
    IndexFields(x, y, z);
    IndexFields(x', y', z');
  }

  // ---------------------------------------------------------------------
  // Accessors

  function GetBlockId(s: Section, x: int, y: int, z: int): int16
    requires Valid(s)
  {
    s.blockIds[GetIndex(x, y, z)]
  }

  function GetBlockData(s: Section, x: int, y: int, z: int): int8
    requires Valid(s)
  {
    s.blockData[GetIndex(x, y, z)]
  }

  function GetLightSky(s: Section, x: int, y: int, z: int): int8
    requires Valid(s)
  {
    s.lightSky[GetIndex(x, y, z)]
  }

  function GetLightBlock(s: Section, x: int, y: int, z: int): int8
    requires Valid(s)
  {
    s.lightBlock[GetIndex(x, y, z)]
  }

  /** `setBlock`: id and data of one cell; nothing else changes. */
  function SetBlock(s: Section, x: int, y: int, z: int, id: int16, data: int8): (r: Section)
    requires Valid(s)
    ensures Valid(r)
    ensures GetBlockId(r, x, y, z) == id && GetBlockData(r, x, y, z) == data
    ensures forall i | 0 <= i < Length && i != GetIndex(x, y, z) ::
      r.blockIds[i] == s.blockIds[i] && r.blockData[i] == s.blockData[i]
    ensures r.chunkY == s.chunkY && r.lightBlock == s.lightBlock && r.lightSky == s.lightSky
  {
    var i := GetIndex(x, y, z);
    s.(blockIds := s.blockIds[i := id], blockData := s.blockData[i := data])
  }

  /** `setLightSky`: one sky-light cell; nothing else changes. */
  function SetLightSky(s: Section, x: int, y: int, z: int, light: int8): (r: Section)
    requires Valid(s)
    ensures Valid(r)
    ensures GetLightSky(r, x, y, z) == light
    ensures forall i | 0 <= i < Length && i != GetIndex(x, y, z) :: r.lightSky[i] == s.lightSky[i]
    ensures r.chunkY == s.chunkY && r.blockIds == s.blockIds && r.blockData == s.blockData
    ensures r.lightBlock == s.lightBlock
  {
    s.(lightSky := s.lightSky[GetIndex(x, y, z) := light])
  }

  /** `setLightBlock`: one block-light cell; nothing else changes. */
  function SetLightBlock(s: Section, x: int, y: int, z: int, light: int8): (r: Section)
    requires Valid(s)
    ensures Valid(r)
    ensures GetLightBlock(r, x, y, z) == light
    ensures forall i | 0 <= i < Length && i != GetIndex(x, y, z) :: r.lightBlock[i] == s.lightBlock[i]
    ensures r.chunkY == s.chunkY && r.blockIds == s.blockIds && r.blockData == s.blockData
    ensures r.lightSky == s.lightSky
  {
    s.(lightBlock := s.lightBlock[GetIndex(x, y, z) := light])
  }

  /** Reading any cell after `setBlock`: the new values at the written cell
      (however its coordinates are offset by multiples of 16), the old ones
      elsewhere. */
  lemma SetBlockThenGet(s: Section, x: int, y: int, z: int, id: int16, data: int8, x': int, y': int, z': int)
    requires Valid(s)
    ensures GetBlockId(SetBlock(s, x, y, z, id, data), x', y', z') ==
      if x % 16 == x' % 16 && y % 16 == y' % 16 && z % 16 == z' % 16 then id else GetBlockId(s, x', y', z')
    ensures GetBlockData(SetBlock(s, x, y, z, id, data), x', y', z') ==
      if x % 16 == x' % 16 && y % 16 == y' % 16 && z % 16 == z' % 16 then data else GetBlockData(s, x', y', z')
  {
    IndexInjective(x, y, z, x', y', z');
  }

  /** Reading any cell after a light setter. */
  lemma SetLightThenGet(s: Section, x: int, y: int, z: int, light: int8, x': int, y': int, z': int)
    requires Valid(s)
    ensures GetLightSky(SetLightSky(s, x, y, z, light), x', y', z') ==
      if x % 16 == x' % 16 && y % 16 == y' % 16 && z % 16 == z' % 16 then light else GetLightSky(s, x', y', z')
    ensures GetLightBlock(SetLightBlock(s, x, y, z, light), x', y', z') ==
      if x % 16 == x' % 16 && y % 16 == y' % 16 && z % 16 == z' % 16 then light else GetLightBlock(s, x', y', z')
  {
    IndexInjective(x, y, z, x', y', z');
  }

  // ---------------------------------------------------------------------
  // Column scan, emptiness, full brightness

  /** The block at (x, y, z) stops light according to the lighter. */
  predicate Opaque(s: Section, l: Lighters.Lighter, x: int, y: int, z: int)
    requires Valid(s)
  {
    Lighters.GetOpacity(l, GetBlockId(s, x, y, z)) != 0
  }

  /** The downward scan of `getHighestBlock`, from `top` to 0. */
  function HighestFrom(s: Section, l: Lighters.Lighter, x: int, z: int, top: int): (y: int)
    requires Valid(s) && -1 <= top <= 15
    ensures -1 <= y <= top
    ensures y >= 0 ==> Opaque(s, l, x, y, z)
    ensures forall y' | y < y' <= top :: !Opaque(s, l, x, y', z)
    decreases top + 1
  {
    if top < 0 then -1
    else if Opaque(s, l, x, top, z) then top
    else HighestFrom(s, l, x, z, top - 1)
  }

  /** `getHighestBlock`: the topmost y of the column whose block has
      non-zero opacity, or -1 when the whole column lets light through. */
  function GetHighestBlock(s: Section, l: Lighters.Lighter, x: int, z: int): (y: int)
    requires Valid(s)
    ensures -1 <= y <= 15
    ensures y >= 0 ==> Opaque(s, l, x, y, z)
    ensures forall y' | y < y' <= 15 :: !Opaque(s, l, x, y', z)
  {
    HighestFrom(s, l, x, z, 15)
  }

  /** `isEmpty`: only air. */
  function IsEmpty(s: Section): (b: bool)
    requires Valid(s)
    ensures b <==> forall i | 0 <= i < Length :: s.blockIds[i] == 0
  {
    IsAllZero(s.blockIds)
  }

  /** A freshly constructed section is empty. */
  lemma NewIsEmpty(chunkY: int8)
    ensures IsEmpty(New(chunkY))
  {
  }

  /** `fullbright`: every sky-light cell becomes 15. */
  function Fullbright(s: Section): (r: Section)
    requires Valid(s)
    ensures Valid(r)
    ensures forall i | 0 <= i < Length :: r.lightSky[i] == 15
    ensures r.chunkY == s.chunkY && r.blockIds == s.blockIds && r.blockData == s.blockData
    ensures r.lightBlock == s.lightBlock
  {
    s.(lightSky := seq(Length, _ => 15))
  }

  // ---------------------------------------------------------------------
  // Tag form

  /** The keys of the section compound, as the bytes of their ASCII names. */
  const YKey: Name := [0x59] // "Y"
  const BlocksKey: Name := [0x42, 0x6C, 0x6F, 0x63, 0x6B, 0x73] // "Blocks"
  const AddKey: Name := [0x41, 0x64, 0x64] // "Add"
  const DataKey: Name := [0x44, 0x61, 0x74, 0x61] // "Data"
  const BlockLightKey: Name := [0x42, 0x6C, 0x6F, 0x63, 0x6B, 0x4C, 0x69, 0x67, 0x68, 0x74] // "BlockLight"
  const SkyLightKey: Name := [0x53, 0x6B, 0x79, 0x4C, 0x69, 0x67, 0x68, 0x74] // "SkyLight"

  /** The six keys are distinct (they differ in length). */
  lemma KeysDistinct()
    ensures YKey != BlocksKey && YKey != AddKey && YKey != DataKey
    ensures YKey != BlockLightKey && YKey != SkyLightKey
    ensures BlocksKey != AddKey && BlocksKey != DataKey
    ensures BlocksKey != BlockLightKey && BlocksKey != SkyLightKey
    ensures AddKey != DataKey && AddKey != BlockLightKey && AddKey != SkyLightKey
    ensures DataKey != BlockLightKey && DataKey != SkyLightKey
    ensures BlockLightKey != SkyLightKey
  {
    assert |YKey| == 1 && |AddKey| == 3 && |DataKey| == 4 && |BlocksKey| == 6;
    assert |SkyLightKey| == 8 && |BlockLightKey| == 10;
  }

  /** The high bytes of the ids, which `serialize` writes as nibbles under
      "Add" unless they are all zero. */
  function HighBytes(s: Section): (h: seq<int8>)
    requires Valid(s)
    ensures |h| == Length
  {
    Split(s.blockIds).1
  }

  /** The compound `serialize` assembles from its parts, key by key in the
      Java order; "Add" only when there is something to add. */
  function Build(y: int8, blocks: seq<int8>, add: Option<seq<int8>>,
                 data: seq<int8>, blight: seq<int8>, slight: seq<int8>): (r: Entries)
    ensures UniqueNames(r)
    ensures Lookup(r, YKey) == Some(TagByte(y))
    ensures Lookup(r, BlocksKey) == Some(TagArrayByte(blocks))
    ensures Lookup(r, AddKey) == if add.None? then None else Some(TagArrayByte(add.value))
    ensures Lookup(r, DataKey) == Some(TagArrayByte(data))
    ensures Lookup(r, BlockLightKey) == Some(TagArrayByte(blight))
    ensures Lookup(r, SkyLightKey) == Some(TagArrayByte(slight))
  {
    KeysDistinct();
    var e0 := Put([], YKey, TagByte(y));
    PutUnique([], YKey, TagByte(y));
    var e1 := Put(e0, BlocksKey, TagArrayByte(blocks));
    PutUnique(e0, BlocksKey, TagArrayByte(blocks));
    assert Lookup(e1, YKey) == Some(TagByte(y));
    assert Keys(e1) == {YKey, BlocksKey};
    var e2 := BuildAdd(e1, add);
    assert Lookup(e2, YKey) == Some(TagByte(y));
    assert Lookup(e2, BlocksKey) == Some(TagArrayByte(blocks));
    var e3 := Put(e2, DataKey, TagArrayByte(data));
    PutUnique(e2, DataKey, TagArrayByte(data));
    var e4 := Put(e3, BlockLightKey, TagArrayByte(blight));
    PutUnique(e3, BlockLightKey, TagArrayByte(blight));
    var r := Put(e4, SkyLightKey, TagArrayByte(slight));
    PutUnique(e4, SkyLightKey, TagArrayByte(slight));
    assert Lookup(e4, DataKey) == Some(TagArrayByte(data));
    r
  }

  /** The optional "Add" step of `serialize`. */
  function BuildAdd(es: Entries, add: Option<seq<int8>>): (r: Entries)
    requires UniqueNames(es) && AddKey !in Keys(es)
    ensures UniqueNames(r)
    ensures Lookup(r, AddKey) == if add.None? then None else Some(TagArrayByte(add.value))
    ensures forall m | m != AddKey :: Lookup(r, m) == Lookup(es, m)
  {
    match add
    case None => es
    case Some(a) => PutUnique(es, AddKey, TagArrayByte(a)); Put(es, AddKey, TagArrayByte(a))
  }

  /** The packed high nibbles of the ids, absent when every id fits in a
      byte. */
  function AddOf(s: Section): (a: Option<seq<int8>>)
    requires Valid(s)
    ensures a.None? <==> IsAllZero(HighBytes(s))
  {
    if IsAllZero(HighBytes(s)) then None else Some(Half(HighBytes(s)))
  }

  /** `serialize`: the compound of a section.  "Y", then the low bytes of
      the ids, the packed high nibbles when some id exceeds 255, and the
      three packed 4-bit fields. */
  function Serialize(s: Section): (r: Entries)
    requires Valid(s)
    ensures UniqueNames(r)
    ensures Lookup(r, YKey) == Some(TagByte(s.chunkY))
    ensures Lookup(r, BlocksKey) == Some(TagArrayByte(Split(s.blockIds).0))
    ensures Lookup(r, AddKey).None? <==> IsAllZero(HighBytes(s))
    ensures Lookup(r, AddKey).Some? ==> Lookup(r, AddKey) == Some(TagArrayByte(Half(HighBytes(s))))
    ensures Lookup(r, DataKey) == Some(TagArrayByte(Half(s.blockData)))
    ensures Lookup(r, BlockLightKey) == Some(TagArrayByte(Half(s.lightBlock)))
    ensures Lookup(r, SkyLightKey) == Some(TagArrayByte(Half(s.lightSky)))
  {
    Build(s.chunkY, Split(s.blockIds).0, AddOf(s),
          Half(s.blockData), Half(s.lightBlock), Half(s.lightSky))
  }

  /** `System.arraycopy(src, 0, dst, 0, 4096)`: the first 4096 entries, or
      an index error when the source is shorter. */
  function CopyCells<T>(src: seq<T>): (r: Result<seq<T>>)
    ensures r.Ok? <==> |src| >= Length
    ensures r.Ok? ==> r.value == src[..Length]
    ensures r.Err? ==> r.error == IndexOutOfBounds(|src|)
  {
    if |src| < Length then Err(IndexOutOfBounds(|src|)) else Ok(src[..Length])
  }

  /** A byte array tag under `key`, unpacked with `twice`; a missing key or
      another tag type fails. */
  function GetNibbles(from: Entries, key: Name): (r: Result<seq<int8>>)
    ensures Lookup(from, key).None? ==> r == Err(AbsentValue(key))
    ensures r.Ok? <==> Lookup(from, key).Some? && Lookup(from, key).value.TagArrayByte?
    ensures r.Ok? ==> r.value == Twice(Lookup(from, key).value.bytes)
  {
    var t :- GetTag(from, key);
    var a :- GetByteArray(t);
    Ok(Twice(a))
  }

  /** The high bytes: the unpacked "Add" array, or 4096 zeros without one. */
  function GetUpper(from: Entries): (r: Result<seq<int8>>)
    ensures Lookup(from, AddKey).None? ==> r == Ok(Zeros8(Length))
    ensures Lookup(from, AddKey).Some? ==> r == GetNibbles(from, AddKey)
  {
    match Lookup(from, AddKey)
    case None => Ok(Zeros8(Length))
    case Some(_) => GetNibbles(from, AddKey)
  }

  /** The compound holds a byte under "Y". */
  predicate HasByteY(from: Entries)
  {
    Lookup(from, YKey).Some? && Lookup(from, YKey).value.TagByte?
  }

  /** `deserialize`: read the compound back, failing as the Java code does
      on a missing key, a wrongly typed tag, unequal id halves (the assert
      of `merge`) or an array shorter than a section. */
  function Deserialize(from: Entries): (r: Result<Section>)
    ensures r.Ok? ==> Valid(r.value)
    ensures r.Ok? ==> Lookup(from, YKey) == Some(TagByte(r.value.chunkY))
    ensures Lookup(from, YKey).None? ==> r == Err(AbsentValue(YKey))
    ensures HasByteY(from) && Lookup(from, BlocksKey).None? ==> r == Err(AbsentValue(BlocksKey))
    ensures HasByteY(from) && Lookup(from, BlocksKey).Some? && !Lookup(from, BlocksKey).value.TagArrayByte? ==>
      r == Err(TypeMismatch)
  {
    var y :- Compounds.GetByte(from, YKey);
    var blocks :- GetTag(from, BlocksKey);
    var lower :- GetByteArray(blocks);
    var upper :- GetUpper(from);
    if |lower| != |upper| then Err(AssertionFailed)
    else
      var ids :- CopyCells(Merge(lower, upper));
      ReadNibbleFields(from, y, ids)
  }

  /** The rest of `deserialize`: the three nibble arrays, each copied into a
      section-sized array, after the layer and the ids. */
  function ReadNibbleFields(from: Entries, y: int8, ids: seq<int16>): (r: Result<Section>)
    requires |ids| == Length
    ensures r.Ok? ==> Valid(r.value) && r.value.chunkY == y && r.value.blockIds == ids
  {
    var data :- GetNibbles(from, DataKey);
    var data :- CopyCells(data);
    var blight :- GetNibbles(from, BlockLightKey);
    var blight :- CopyCells(blight);
    var slight :- GetNibbles(from, SkyLightKey);
    var slight :- CopyCells(slight);
    Ok(Section(y, ids, data, blight, slight))
  }

  /** The high byte of a 12-bit id is its top nibble. */
  lemma HighByteOfId(id: int16, h: int8)
    requires 0 <= id < 4096
    requires (h as int) % 256 == (id / 256) % 256
    ensures h == id / 256 && 0 <= h < 16
  {
    DivModUnique(id / 256, 256, 0, id / 256);
    if h < 0 {
      DivModUnique(h, 256, -1, h + 256);
    } else {
      DivModUnique(h, 256, 0, h);
    }
  }

  /** For 12-bit ids the high bytes are nibbles. */
  lemma HighBytesAreNibbles(s: Section)
    requires Storable(s)
    ensures forall i | 0 <= i < Length :: 0 <= HighBytes(s)[i] < 16
    ensures IsAllZero(HighBytes(s)) ==> HighBytes(s) == Zeros8(Length)
  {
    forall i | 0 <= i < Length ensures 0 <= HighBytes(s)[i] < 16 {
      HighByteOfId(s.blockIds[i], HighBytes(s)[i]);
    }
  }

  /** Reading back the high bytes recovers them, whether or not "Add" was
      written. */
  lemma UpperRoundTrip(s: Section)
    requires Storable(s)
    ensures GetUpper(Serialize(s)) == Ok(HighBytes(s))
  {
    HighBytesAreNibbles(s);
    if !IsAllZero(HighBytes(s)) {
      TwiceHalf(HighBytes(s));
    }
  }

  /** A 4-bit field survives `half` then `twice`. */
  lemma NibblesRoundTrip(e: Entries, key: Name, field: seq<int8>)
    requires |field| == Length
    requires forall i | 0 <= i < Length :: 0 <= field[i] < 16
    requires Lookup(e, key) == Some(TagArrayByte(Half(field)))
    ensures GetNibbles(e, key) == Ok(field)
    ensures CopyCells(field) == Ok(field)
  {
    TwiceHalf(field);
    assert field[..Length] == field;
  }

  /** Every storable section survives serialisation unchanged. */
  lemma RoundTrip(s: Section)
    requires Storable(s)
    ensures Deserialize(Serialize(s)) == Ok(s)
  {
    UpperRoundTrip(s);
    MergeSplit(s.blockIds);
    CopyWhole(s.blockIds);
    NibbleFieldsRoundTrip(s);
  }

  /** Copying a section-sized array copies all of it. */
  lemma CopyWhole<T>(a: seq<T>)
    requires |a| == Length
    ensures CopyCells(a) == Ok(a)
  {
    assert a[..Length] == a;
  }

  /** The data and light arrays of a storable section read back as written. */
  lemma NibbleFieldsRoundTrip(s: Section)
    requires Storable(s)
    ensures ReadNibbleFields(Serialize(s), s.chunkY, s.blockIds) == Ok(s)
  {
    NibblesRoundTrip(Serialize(s), DataKey, s.blockData);
    NibblesRoundTrip(Serialize(s), BlockLightKey, s.lightBlock);
    NibblesRoundTrip(Serialize(s), SkyLightKey, s.lightSky);
  }
}
