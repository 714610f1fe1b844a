/** The .schematic format: a cuboid of block ids and block data of
    width (x) by height (y) by length (z), with its entities and tile
    entities, as WorldEdit and similar tools exchange it. */
module Schematics {
  import opened Bytes
  import opened Wrappers
  import opened TagTypes
  import opened Tags
  import opened Compounds
  import Sections

  const WidthKey: Name := [0x57, 0x69, 0x64, 0x74, 0x68] // "Width"
  const HeightKey: Name := [0x48, 0x65, 0x69, 0x67, 0x68, 0x74] // "Height"
  const LengthKey: Name := [0x4C, 0x65, 0x6E, 0x67, 0x74, 0x68] // "Length"
  const EntitiesKey: Name := [0x45, 0x6E, 0x74, 0x69, 0x74, 0x69, 0x65, 0x73] // "Entities"
  const TileEntitiesKey: Name :=
    [0x54, 0x69, 0x6C, 0x65, 0x45, 0x6E, 0x74, 0x69, 0x74, 0x69, 0x65, 0x73] // "TileEntities"

  /** The dimensions are Java shorts; the two block arrays are whatever the
      document held, of any length.  The entity lists hold tags: the loader
      casts the lists without looking at their elements. */
  datatype Schematic = Schematic(
    width: int16,
    height: int16,
    length: int16,
    blockIds: seq<int8>,
    blockData: seq<int8>,
    entities: seq<Tag>,
    tileEntities: seq<Tag>)

  // ---------------------------------------------------------------------
  // Loading

  /** What `load` needs of its source: the three dimensions as shorts, the
      two block arrays as byte arrays and the two entity lists as lists. */
  predicate Loadable(source: Entries)
  {
    (Lookup(source, WidthKey).Some? && Lookup(source, WidthKey).value.TagShort?) &&
    (Lookup(source, HeightKey).Some? && Lookup(source, HeightKey).value.TagShort?) &&
    (Lookup(source, LengthKey).Some? && Lookup(source, LengthKey).value.TagShort?) &&
    (Lookup(source, Sections.BlocksKey).Some? && Lookup(source, Sections.BlocksKey).value.TagArrayByte?) &&
    (Lookup(source, Sections.DataKey).Some? && Lookup(source, Sections.DataKey).value.TagArrayByte?) &&
    (Lookup(source, EntitiesKey).Some? && Lookup(source, EntitiesKey).value.TagList?) &&
    (Lookup(source, TileEntitiesKey).Some? && Lookup(source, TileEntitiesKey).value.TagList?)
  }

  /** The seven keys `load` reads, in the order it reads them. */
  function LoadKeys(): (ks: seq<Name>)
    ensures |ks| == 7
  {
    [WidthKey, HeightKey, LengthKey, Sections.BlocksKey, Sections.DataKey, EntitiesKey, TileEntitiesKey]
  }

  /** `load(source)`: each field from its key.  A missing key is an
      absent-value error naming it; a tag of another type fails the
      accessor or the cast. */
  function Load(source: Entries): (r: Result<Schematic>)
    ensures r.Ok? <==> Loadable(source)
    ensures r.Ok? ==>
      Lookup(source, WidthKey) == Some(TagShort(r.value.width)) &&
      Lookup(source, HeightKey) == Some(TagShort(r.value.height)) &&
      Lookup(source, LengthKey) == Some(TagShort(r.value.length)) &&
      Lookup(source, Sections.BlocksKey) == Some(TagArrayByte(r.value.blockIds)) &&
      Lookup(source, Sections.DataKey) == Some(TagArrayByte(r.value.blockData)) &&
      Lookup(source, EntitiesKey) == Some(TagList(r.value.entities)) &&
      Lookup(source, TileEntitiesKey) == Some(TagList(r.value.tileEntities))
    ensures r.Err? && r.error.AbsentValue? ==> r.error.key in LoadKeys() && r.error.key !in Keys(source)
    ensures r.Err? && !r.error.AbsentValue? ==> r.error == TypeMismatch
  {
    var w :- Compounds.GetShort(source, WidthKey);
    var h :- Compounds.GetShort(source, HeightKey);
    var l :- Compounds.GetShort(source, LengthKey);
    var blocks :- GetTag(source, Sections.BlocksKey);
    var ids :- GetByteArray(blocks);
    var dataTag :- GetTag(source, Sections.DataKey);
    var data :- GetByteArray(dataTag);
    var entities :- GetTag(source, EntitiesKey);
    var es :- AsList(entities);
    var tileEntities :- GetTag(source, TileEntitiesKey);
    var tes :- AsList(tileEntities);
    Ok(Schematic(w, h, l, ids, data, es, tes))
  }

  /** The seven keys are distinct (their lengths or first bytes differ). */
  lemma KeysDistinct()
    ensures forall i, j | 0 <= i < j < 7 :: LoadKeys()[i] != LoadKeys()[j]
  {
    var ks := LoadKeys();
    forall i, j | 0 <= i < j < 7 ensures ks[i] != ks[j] {
      assert |ks[i]| != |ks[j]| || ks[i][0] != ks[j][0];
    }
  }

  /** The document a schematic is stored as: the fields added key by key,
      in the order `load` reads them. */
  function Document(s: Schematic): (es: Entries)
    ensures Lookup(es, WidthKey) == Some(TagShort(s.width))
    ensures Lookup(es, HeightKey) == Some(TagShort(s.height))
    ensures Lookup(es, LengthKey) == Some(TagShort(s.length))
    ensures Lookup(es, Sections.BlocksKey) == Some(TagArrayByte(s.blockIds))
    ensures Lookup(es, Sections.DataKey) == Some(TagArrayByte(s.blockData))
    ensures Lookup(es, EntitiesKey) == Some(TagList(s.entities))
    ensures Lookup(es, TileEntitiesKey) == Some(TagList(s.tileEntities))
  {
    KeysDistinct();
    var ks := LoadKeys();
    var e0 := Put([], ks[0], TagShort(s.width));
    var e1 := Put(e0, ks[1], TagShort(s.height));
    var e2 := Put(e1, ks[2], TagShort(s.length));
    var e3 := Put(e2, ks[3], TagArrayByte(s.blockIds));
    var e4 := Put(e3, ks[4], TagArrayByte(s.blockData));
    var e5 := Put(e4, ks[5], TagList(s.entities));
    Put(e5, ks[6], TagList(s.tileEntities))
  }

  /** Every schematic is loaded back from its document. */
  lemma LoadDocument(s: Schematic)
    ensures Load(Document(s)) == Ok(s)
  {
    var d := Document(s);
    assert Loadable(d);
  }

  // ---------------------------------------------------------------------
  // Cell index

  const Two32 := 0x1_0000_0000

  /** The exact product `a * b`, written as repeated addition: the solver
      then unfolds it only where a proof asks for it (`ProductIsMul`), and
      every fact about block access stays linear. */
  function Product(a: int, b: int): int
    decreases if b < 0 then -b else b, if b < 0 then 1 else 0
  {
    if b == 0 then 0 else if b < 0 then -Product(a, -b) else Product(a, b - 1) + a
  }

  lemma {:induction false} ProductIsMul(a: int, b: int)
    ensures Product(a, b) == a * b
    decreases if b < 0 then -b else b, if b < 0 then 1 else 0
  {
    if b < 0 {
      ProductIsMul(a, -b);
    } else if b > 0 {
      ProductIsMul(a, b - 1);
    }
  }

  /** `getIndex(x, y, z)`: `x + (z + y * length) * width` evaluated in
      32-bit ints, each product and sum wrapping. */
  function Index(width: int16, length: int16, x: int32, y: int32, z: int32): int32
  {
    var yl := ToInt32(Product(y, length));
    var row := ToInt32(z + yl);
    var offset := ToInt32(Product(row, width));
    ToInt32(x + offset)
  }

  /** `getIndex` on a schematic's own dimensions. */
  function IndexIn(s: Schematic, x: int32, y: int32, z: int32): int32
  {
    Index(s.width, s.length, x, y, z)
  }

  /** Wrapping moves a value by a multiple of 2^32. */
  lemma WrapOffset(v: int)
    ensures (v - ToInt32(v)) % Two32 == 0
  {
  }

  /** Values 2^32 apart wrap alike. */
  lemma WrapShift(v: int, k: int)
    ensures ToInt32(v + k * Two32) == ToInt32(v)
  {
    assert (v + k * Two32) % Two32 == v % Two32;
  }

  /** Wrapping an operand of a sum changes nothing modulo 2^32. */
  lemma WrapAdd(a: int, b: int)
    ensures ToInt32(a + ToInt32(b)) == ToInt32(a + b)
  {
    WrapOffset(b);
    var k := (b - ToInt32(b)) / Two32;
    assert a + ToInt32(b) == a + b + (-k) * Two32;
    WrapShift(a + b, -k);
  }

  /** Wrapping a factor of a product changes nothing modulo 2^32. */
  lemma WrapMul(a: int, b: int)
    ensures ToInt32(ToInt32(a) * b) == ToInt32(a * b)
  {
    WrapOffset(a);
    var k := (a - ToInt32(a)) / Two32;
    assert ToInt32(a) == a - k * Two32;
    assert ToInt32(a) * b == a * b - (k * b) * Two32 by {
      assert (a - k * Two32) * b == a * b - (k * Two32) * b;
      assert (k * Two32) * b == (k * b) * Two32;
    }
    WrapShift(a * b, -(k * b));
  }

  /** Wrapping after every step is wrapping once: the index is the exact
      value reduced to 32 bits. */
  lemma IndexWrapsOnce(s: Schematic, x: int32, y: int32, z: int32)
    ensures IndexIn(s, x, y, z) == ToInt32(x + (z + y * s.length) * s.width)
  {
    ProductIsMul(y, s.length);
    ProductIsMul(ToInt32(z + ToInt32(y * s.length)), s.width);
    WrapAdd(z, y * s.length);
    WrapMul(z + y * s.length, s.width);
    WrapAdd(x, (z + y * s.length) * s.width);
  }

  /** The coordinates inside the cuboid. */
  predicate InBox(s: Schematic, x: int, y: int, z: int)
  {
    0 <= x < s.width && 0 <= y < s.height && 0 <= z < s.length
  }

  /** The number of cells. */
  function Volume(s: Schematic): int
  {
    s.width * s.height * s.length
  }

  /** The exact (unwrapped) index: x varies fastest, then z, then y. */
  function Cell(s: Schematic, x: int, y: int, z: int): int
  {
    x + (z + y * s.length) * s.width
  }

  /** `a + m * n` with `0 <= a < n` determines both `a` and `m`. */
  lemma MixedRadix(a: int, m: int, a': int, m': int, n: int)
    requires 0 <= a < n && 0 <= a' < n
    ensures a + m * n == a' + m' * n <==> a == a' && m == m'
  {
    if a + m * n == a' + m' * n {
      assert (m - m') * n == a' - a;
      if m > m' {
        MulAtLeast(m - m', n);
      } else if m < m' {
        MulAtLeast(m' - m, n);
      }
    }
  }

  lemma MulAtLeast(k: int, n: int)
    requires k >= 1 && n >= 0
    ensures k * n >= n
  {
    assert k * n == (k - 1) * n + n;
  }

  /** Multiplying by a non-negative factor keeps an order. */
  lemma MulLe(a: int, b: int, n: int)
    requires a <= b && n >= 0
    ensures a * n <= b * n
  {
    assert b * n - a * n == (b - a) * n;
  }

  /** Inside the cuboid the exact index lies in `0 .. Volume - 1`. */
  lemma CellBound(s: Schematic, x: int, y: int, z: int)
    requires InBox(s, x, y, z)
    ensures 0 <= Cell(s, x, y, z) < Volume(s)
  {
    var w, l := s.width, s.length;
    var row := z + y * l;
    MulLe(0, y, l);
    MulLe(y + 1, s.height, l);
    assert (y + 1) * l == y * l + l;
    assert 0 <= row < s.height * l;
    MulLe(0, row, w);
    MulLe(row + 1, s.height * l, w);
    assert (row + 1) * w == row * w + w;
    assert s.height * l * w == Volume(s);
  }

  /** Inside the cuboid distinct coordinates have distinct exact indices. */
  lemma CellInjective(s: Schematic, x: int, y: int, z: int, x': int, y': int, z': int)
    requires InBox(s, x, y, z) && InBox(s, x', y', z')
    ensures Cell(s, x, y, z) == Cell(s, x', y', z') <==> x == x' && y == y' && z == z'
  {
    MixedRadix(x, z + y * s.length, x', z' + y' * s.length, s.width);
    MixedRadix(z, y, z', y', s.length);
  }

  /** When the cuboid has fewer cells than `Integer.MAX_VALUE`, no step of
      `getIndex` wraps inside it. */
  lemma IndexInBox(s: Schematic, x: int32, y: int32, z: int32)
    requires InBox(s, x, y, z) && Volume(s) < 0x8000_0000
    ensures IndexIn(s, x, y, z) == Cell(s, x, y, z)
  {
    IndexWrapsOnce(s, x, y, z);
    CellBound(s, x, y, z);
  }

  // ---------------------------------------------------------------------
  // Blocks

  /** The two byte arrays a schematic holds per cell. */
  datatype Layer = Ids | Data

  function Cells(s: Schematic, layer: Layer): seq<int8>
  {
    if layer.Ids? then s.blockIds else s.blockData
  }

  /** The byte at array index `i`, or an out-of-bounds error at `i`. */
  function BlockAt(s: Schematic, layer: Layer, i: int): (r: Result<int8>)
    ensures r.Ok? <==> 0 <= i < |Cells(s, layer)|
    ensures r.Ok? ==> r.value == Cells(s, layer)[i]
    ensures r.Err? ==> r.error == IndexOutOfBounds(i)
  {
    if 0 <= i < |Cells(s, layer)| then Ok(Cells(s, layer)[i]) else Err(IndexOutOfBounds(i))
  }

  /** Stores `b` at array index `i`, failing as `BlockAt` does. */
  function StoreAt(s: Schematic, layer: Layer, i: int, b: int8): (r: Result<Schematic>)
    ensures r.Ok? <==> BlockAt(s, layer, i).Ok?
    ensures r.Err? ==> r.error == BlockAt(s, layer, i).error
    ensures r.Ok? ==> r.value.(blockIds := s.blockIds, blockData := s.blockData) == s
  {
    if !(0 <= i < |Cells(s, layer)|) then Err(IndexOutOfBounds(i))
    else if layer.Ids? then Ok(s.(blockIds := s.blockIds[i := b]))
    else Ok(s.(blockData := s.blockData[i := b]))
  }

  /** Reading after a store: the stored byte at the same layer and index,
      the old value everywhere else. */
  lemma StoreThenRead(s: Schematic, layer: Layer, i: int, b: int8, layer': Layer, j: int)
    requires StoreAt(s, layer, i, b).Ok?
    ensures BlockAt(StoreAt(s, layer, i, b).value, layer', j) ==
      if layer == layer' && i == j then Ok(b) else BlockAt(s, layer', j)
  {
  }

  /** `getBlockId` / `getBlockData`: the byte at `getIndex`. */
  function GetBlock(s: Schematic, layer: Layer, x: int32, y: int32, z: int32): (r: Result<int8>)
    ensures r.Ok? <==> 0 <= IndexIn(s, x, y, z) < |Cells(s, layer)|
    ensures r.Ok? ==> r.value == Cells(s, layer)[IndexIn(s, x, y, z)]
    ensures r.Err? ==> r.error == IndexOutOfBounds(IndexIn(s, x, y, z))
  {
    BlockAt(s, layer, IndexIn(s, x, y, z))
  }

  /** `setBlockId` / `setBlockData`: the byte stored at `getIndex`. */
  function SetBlock(s: Schematic, layer: Layer, x: int32, y: int32, z: int32, b: int8): (r: Result<Schematic>)
    ensures r.Ok? <==> GetBlock(s, layer, x, y, z).Ok?
    ensures r.Err? ==> r.error == GetBlock(s, layer, x, y, z).error
    ensures r.Ok? ==> r.value.(blockIds := s.blockIds, blockData := s.blockData) == s
    ensures r.Ok? ==> r.value.width == s.width && r.value.length == s.length
  {
    StoreAt(s, layer, IndexIn(s, x, y, z), b)
  }

  /** `getBlockId`: the id byte at `getIndex`; an index outside the array
      throws. */
  function GetBlockId(s: Schematic, x: int32, y: int32, z: int32): (r: Result<int8>)
    ensures r.Ok? <==> 0 <= IndexIn(s, x, y, z) < |s.blockIds|
    ensures r.Ok? ==> r.value == s.blockIds[IndexIn(s, x, y, z)]
    ensures r.Err? ==> r.error == IndexOutOfBounds(IndexIn(s, x, y, z))
  {
    GetBlock(s, Ids, x, y, z)
  }

  /** `getBlockData`: the data byte at `getIndex`. */
  function GetBlockData(s: Schematic, x: int32, y: int32, z: int32): (r: Result<int8>)
    ensures r.Ok? <==> 0 <= IndexIn(s, x, y, z) < |s.blockData|
    ensures r.Ok? ==> r.value == s.blockData[IndexIn(s, x, y, z)]
    ensures r.Err? ==> r.error == IndexOutOfBounds(IndexIn(s, x, y, z))
  {
    GetBlock(s, Data, x, y, z)
  }

  /** `setBlockId`: only the id byte at `getIndex` changes. */
  function SetBlockId(s: Schematic, x: int32, y: int32, z: int32, id: int8): (r: Result<Schematic>)
    ensures r.Ok? <==> 0 <= IndexIn(s, x, y, z) < |s.blockIds|
    ensures r.Ok? ==> GetBlockId(r.value, x, y, z) == Ok(id)
    ensures r.Ok? ==> r.value.blockData == s.blockData && |r.value.blockIds| == |s.blockIds|
    ensures r.Ok? ==> forall i | 0 <= i < |s.blockIds| && i != IndexIn(s, x, y, z) ::
      r.value.blockIds[i] == s.blockIds[i]
  {
    SetBlock(s, Ids, x, y, z, id)
  }

  /** `setBlockData`: only the data byte at `getIndex` changes. */
  function SetBlockData(s: Schematic, x: int32, y: int32, z: int32, data: int8): (r: Result<Schematic>)
    ensures r.Ok? <==> 0 <= IndexIn(s, x, y, z) < |s.blockData|
    ensures r.Ok? ==> GetBlockData(r.value, x, y, z) == Ok(data)
    ensures r.Ok? ==> r.value.blockIds == s.blockIds && |r.value.blockData| == |s.blockData|
    ensures r.Ok? ==> forall i | 0 <= i < |s.blockData| && i != IndexIn(s, x, y, z) ::
      r.value.blockData[i] == s.blockData[i]
  {
    SetBlock(s, Data, x, y, z, data)
  }

  /** Reading after a store: the stored byte where the layer and index
      agree, the old value everywhere else. */
  lemma GetAfterSet(s: Schematic, layer: Layer, x: int32, y: int32, z: int32, b: int8,
                    layer': Layer, x': int32, y': int32, z': int32)
    requires SetBlock(s, layer, x, y, z, b).Ok?
    ensures GetBlock(SetBlock(s, layer, x, y, z, b).value, layer', x', y', z') ==
      if layer == layer' && IndexIn(s, x, y, z) == IndexIn(s, x', y', z') then Ok(b)
      else GetBlock(s, layer', x', y', z')
  {
    StoreThenRead(s, layer, IndexIn(s, x, y, z), b, layer', IndexIn(s, x', y', z'));
  }

  /** Inside a cuboid with fewer than 2^31 cells the index is that of the
      coordinates: a store is read back at the same coordinates and at no
      others. */
  lemma GetAfterSetInBox(s: Schematic, layer: Layer, x: int32, y: int32, z: int32, b: int8,
                         layer': Layer, x': int32, y': int32, z': int32)
    requires InBox(s, x, y, z) && InBox(s, x', y', z') && Volume(s) < 0x8000_0000
    requires SetBlock(s, layer, x, y, z, b).Ok?
    ensures GetBlock(SetBlock(s, layer, x, y, z, b).value, layer', x', y', z') ==
      if layer == layer' && x == x' && y == y' && z == z' then Ok(b)
      else GetBlock(s, layer', x', y', z')
  {
    IndexInBox(s, x, y, z);
    IndexInBox(s, x', y', z');
    CellInjective(s, x, y, z, x', y', z');
    GetAfterSet(s, layer, x, y, z, b, layer', x', y', z');
  }

  /** A schematic whose arrays hold one byte per cell reads every cell of
      its cuboid. */
  lemma InBoxReadable(s: Schematic, layer: Layer, x: int32, y: int32, z: int32)
    requires InBox(s, x, y, z) && Volume(s) < 0x8000_0000 && |Cells(s, layer)| == Volume(s)
    ensures 0 <= Cell(s, x, y, z) < |Cells(s, layer)| &&
      GetBlock(s, layer, x, y, z) == Ok(Cells(s, layer)[Cell(s, x, y, z)])
  {
    IndexInBox(s, x, y, z);
    CellBound(s, x, y, z);
  }
}
