/** The tag form of a chunk: a root compound holding one compound, "Level",
    with the chunk's fields, its non-empty sections and its entity lists. */
module ChunkCodec {
  import opened Bytes
  import opened Wrappers
  import opened TagTypes
  import opened Tags
  import opened Compounds
  import opened Lists
  import opened Util
  import opened WorldProps
  import Sections
  import opened Chunks

  /** The keys of the "Level" compound, as the bytes of their ASCII names. */
  const XPosKey: Name := [0x78, 0x50, 0x6F, 0x73] // "xPos"
  const ZPosKey: Name := [0x7A, 0x50, 0x6F, 0x73] // "zPos"
  const LastUpdateKey: Name := [0x4C, 0x61, 0x73, 0x74, 0x55, 0x70, 0x64, 0x61, 0x74, 0x65] // "LastUpdate"
  const PopulatedKey: Name := [0x54, 0x65, 0x72, 0x72, 0x61, 0x69, 0x6E, 0x50, 0x6F, 0x70, 0x75, 0x6C, 0x61, 0x74, 0x65, 0x64] // "TerrainPopulated"
  const InhabitedKey: Name := [0x49, 0x6E, 0x68, 0x61, 0x62, 0x69, 0x74, 0x65, 0x64, 0x54, 0x69, 0x6D, 0x65] // "InhabitedTime"
  const BiomesKey: Name := [0x42, 0x69, 0x6F, 0x6D, 0x65, 0x73] // "Biomes"
  const HeightMapKey: Name := [0x48, 0x65, 0x69, 0x67, 0x68, 0x74, 0x4D, 0x61, 0x70] // "HeightMap"
  const SectionsKey: Name := [0x53, 0x65, 0x63, 0x74, 0x69, 0x6F, 0x6E, 0x73] // "Sections"
  const EntitiesKey: Name := [0x45, 0x6E, 0x74, 0x69, 0x74, 0x69, 0x65, 0x73] // "Entities"
  const TileEntitiesKey: Name := [0x54, 0x69, 0x6C, 0x65, 0x45, 0x6E, 0x74, 0x69, 0x74, 0x69, 0x65, 0x73] // "TileEntities"
  const TileTicksKey: Name := [0x54, 0x69, 0x6C, 0x65, 0x54, 0x69, 0x63, 0x6B, 0x73] // "TileTicks"
  const LevelKey: Name := [0x4C, 0x65, 0x76, 0x65, 0x6C] // "Level"

  /** The keys of the header fields are distinct. */
  lemma HeaderKeysDistinct()
    ensures XPosKey != ZPosKey && XPosKey != LastUpdateKey && XPosKey != PopulatedKey
    ensures XPosKey != InhabitedKey && ZPosKey != LastUpdateKey && ZPosKey != PopulatedKey
    ensures ZPosKey != InhabitedKey && LastUpdateKey != PopulatedKey && LastUpdateKey != InhabitedKey
    ensures PopulatedKey != InhabitedKey
  {
    assert XPosKey[0] != ZPosKey[0];
  }

  /** The keys of the remaining fields are distinct. */
  lemma BodyKeysDistinct()
    ensures BiomesKey != HeightMapKey && BiomesKey != SectionsKey && BiomesKey != EntitiesKey
    ensures BiomesKey != TileEntitiesKey && BiomesKey != TileTicksKey && HeightMapKey != SectionsKey
    ensures HeightMapKey != EntitiesKey && HeightMapKey != TileEntitiesKey && HeightMapKey != TileTicksKey
    ensures SectionsKey != EntitiesKey && SectionsKey != TileEntitiesKey && SectionsKey != TileTicksKey
    ensures EntitiesKey != TileEntitiesKey && EntitiesKey != TileTicksKey && TileEntitiesKey != TileTicksKey
  {
    assert HeightMapKey[0] != TileTicksKey[0];
    assert SectionsKey[0] != EntitiesKey[0];
  }

  /** No header key is a key of the remaining fields. */
  lemma HeaderBodyDistinct()
    ensures XPosKey != BiomesKey && XPosKey != HeightMapKey && XPosKey != SectionsKey
    ensures XPosKey != EntitiesKey && XPosKey != TileEntitiesKey && XPosKey != TileTicksKey
    ensures ZPosKey != BiomesKey && ZPosKey != HeightMapKey && ZPosKey != SectionsKey
    ensures ZPosKey != EntitiesKey && ZPosKey != TileEntitiesKey && ZPosKey != TileTicksKey
    ensures LastUpdateKey != BiomesKey && LastUpdateKey != HeightMapKey && LastUpdateKey != SectionsKey
    ensures LastUpdateKey != EntitiesKey && LastUpdateKey != TileEntitiesKey && LastUpdateKey != TileTicksKey
    ensures PopulatedKey != BiomesKey && PopulatedKey != HeightMapKey && PopulatedKey != SectionsKey
    ensures PopulatedKey != EntitiesKey && PopulatedKey != TileEntitiesKey && PopulatedKey != TileTicksKey
    ensures InhabitedKey != BiomesKey && InhabitedKey != HeightMapKey && InhabitedKey != SectionsKey
    ensures InhabitedKey != EntitiesKey && InhabitedKey != TileEntitiesKey && InhabitedKey != TileTicksKey
  {
  }

  // ---------------------------------------------------------------------
  // Serialisation

  /** The sections `serialize` writes: the non-empty ones, bottom to top. */
  function NonEmpty(ss: seq<Sections.Section>): (r: seq<Sections.Section>)
    requires forall i | 0 <= i < |ss| :: Sections.Valid(ss[i])
    ensures |r| <= |ss|
    ensures forall j | 0 <= j < |r| :: Sections.Valid(r[j]) && !Sections.IsEmpty(r[j])
    decreases |ss|
  {
    if |ss| == 0 then []
    else
      var rest := NonEmpty(ss[..|ss| - 1]);
      if Sections.IsEmpty(ss[|ss| - 1]) then rest else rest + [ss[|ss| - 1]]
  }

  /** `NonEmpty` keeps exactly the non-empty sections: each of its elements
      comes from `ss`, and each non-empty section of `ss` is among them. */
  lemma {:induction false} NonEmptyMembers(ss: seq<Sections.Section>)
    requires forall i | 0 <= i < |ss| :: Sections.Valid(ss[i])
    ensures forall j | 0 <= j < |NonEmpty(ss)| :: NonEmpty(ss)[j] in ss
    ensures forall i | 0 <= i < |ss| && !Sections.IsEmpty(ss[i]) :: ss[i] in NonEmpty(ss)
    decreases |ss|
  {
    if |ss| > 0 {
      var init := ss[..|ss| - 1];
      NonEmptyMembers(init);
      assert forall i | 0 <= i < |ss| - 1 :: ss[i] == init[i];
    }
  }

  /** Each section as the compound `ChunkSection.serialize` gives. */
  function Encode(xs: seq<Sections.Section>): (ts: seq<Tag>)
    requires forall i | 0 <= i < |xs| :: Sections.Valid(xs[i])
    ensures |ts| == |xs|
    ensures forall i | 0 <= i < |ts| :: ts[i].TagCompound?
  {
    seq(|xs|, i requires 0 <= i < |xs| => TagCompound(Sections.Serialize(xs[i])))
  }

  /** The "Sections" list. */
  function SectionTags(ss: seq<Sections.Section>): (ts: seq<Tag>)
    requires forall i | 0 <= i < |ss| :: Sections.Valid(ss[i])
  {
    Encode(NonEmpty(ss))
  }

  /** The biomes are written unless every one is -1. */
  function BiomesOf(c: Chunk): (b: Option<seq<int8>>)
    ensures b.None? <==> forall i | 0 <= i < |c.biomes| :: c.biomes[i] == -1
    ensures b.Some? ==> b.value == c.biomes
  {
    if IsAll(-1, c.biomes) then None else Some(c.biomes)
  }

  /** The entity lists are homogeneous, as the list constructor asserts. */
  predicate ListsIntact(c: Chunk)
  {
    CheckListIntegrity(c.entities) && CheckListIntegrity(c.tileEntities) && CheckListIntegrity(c.tileTicks)
  }

  /** The optional "Biomes" step of `serialize`. */
  function PutBiomes(es: Entries, biomes: Option<seq<int8>>): (r: Entries)
    requires UniqueNames(es)
    ensures UniqueNames(r)
    ensures Lookup(r, BiomesKey) == if biomes.None? then Lookup(es, BiomesKey) else Some(TagArrayByte(biomes.value))
    ensures forall m | m != BiomesKey :: Lookup(r, m) == Lookup(es, m)
  {
    match biomes
    case None => es
    case Some(b) => PutUnique(es, BiomesKey, TagArrayByte(b)); Put(es, BiomesKey, TagArrayByte(b))
  }

  /** The first five `addTag` calls of `serialize`. */
  function Header(x: int32, z: int32, lastUpdated: int64, populated: int8, inhabited: int64): (r: Entries)
    ensures UniqueNames(r)
    ensures Lookup(r, BiomesKey).None?
  {
    HeaderBodyDistinct();
    var e0 := Put([], XPosKey, TagInt(x));
    PutUnique([], XPosKey, TagInt(x));
    var e1 := Put(e0, ZPosKey, TagInt(z));
    PutUnique(e0, ZPosKey, TagInt(z));
    var e2 := Put(e1, LastUpdateKey, TagLong(lastUpdated));
    PutUnique(e1, LastUpdateKey, TagLong(lastUpdated));
    var e3 := Put(e2, PopulatedKey, TagByte(populated));
    PutUnique(e2, PopulatedKey, TagByte(populated));
    PutUnique(e3, InhabitedKey, TagLong(inhabited));
    var e4 := Put(e3, InhabitedKey, TagLong(inhabited));
    assert Lookup(e4, BiomesKey) == Lookup(e3, BiomesKey) == Lookup(e2, BiomesKey) ==
           Lookup(e1, BiomesKey) == Lookup(e0, BiomesKey) == Lookup([], BiomesKey);
    e4
  }

  /** The `addTag` calls of `serialize`, in order, from plain field values. */
  function Assemble(x: int32, z: int32, lastUpdated: int64, populated: int8, inhabited: int64,
                    biomes: Option<seq<int8>>, heightMap: seq<int32>, sections: seq<Tag>,
                    entities: seq<Tag>, tileEntities: seq<Tag>, tileTicks: seq<Tag>): (r: Entries)
    ensures UniqueNames(r)
  {
    var e4 := Header(x, z, lastUpdated, populated, inhabited);
    var e5 := PutBiomes(e4, biomes);
    var e6 := Put(e5, HeightMapKey, TagArrayInt(heightMap));
    PutUnique(e5, HeightMapKey, TagArrayInt(heightMap));
    var e7 := Put(e6, SectionsKey, TagList(sections));
    PutUnique(e6, SectionsKey, TagList(sections));
    var e8 := Put(e7, EntitiesKey, TagList(entities));
    PutUnique(e7, EntitiesKey, TagList(entities));
    var e9 := Put(e8, TileEntitiesKey, TagList(tileEntities));
    PutUnique(e8, TileEntitiesKey, TagList(tileEntities));
    PutUnique(e9, TileTicksKey, TagList(tileTicks));
    Put(e9, TileTicksKey, TagList(tileTicks))
  }

  /** The five header fields sit under their keys. */
  lemma AssembleHeader(x: int32, z: int32, lastUpdated: int64, populated: int8, inhabited: int64,
                       biomes: Option<seq<int8>>, heightMap: seq<int32>, sections: seq<Tag>,
                       entities: seq<Tag>, tileEntities: seq<Tag>, tileTicks: seq<Tag>)
    ensures var r := Assemble(x, z, lastUpdated, populated, inhabited, biomes, heightMap, sections,
                              entities, tileEntities, tileTicks);
      Lookup(r, XPosKey) == Some(TagInt(x)) && Lookup(r, ZPosKey) == Some(TagInt(z)) &&
      Lookup(r, LastUpdateKey) == Some(TagLong(lastUpdated)) &&
      Lookup(r, PopulatedKey) == Some(TagByte(populated)) &&
      Lookup(r, InhabitedKey) == Some(TagLong(inhabited))
  {
    HeaderKeysDistinct();
    HeaderBodyDistinct();
  }

  /** The biomes sit under their key when present and are absent
      otherwise. */
  lemma AssembleBiomes(x: int32, z: int32, lastUpdated: int64, populated: int8, inhabited: int64,
                       biomes: Option<seq<int8>>, heightMap: seq<int32>, sections: seq<Tag>,
                       entities: seq<Tag>, tileEntities: seq<Tag>, tileTicks: seq<Tag>)
    ensures var r := Assemble(x, z, lastUpdated, populated, inhabited, biomes, heightMap, sections,
                              entities, tileEntities, tileTicks);
      Lookup(r, BiomesKey) == if biomes.None? then None else Some(TagArrayByte(biomes.value))
  {
    BodyKeysDistinct();
    HeaderBodyDistinct();
  }

  /** The height map and the sections sit under their keys. */
  lemma AssembleMiddle(x: int32, z: int32, lastUpdated: int64, populated: int8, inhabited: int64,
                       biomes: Option<seq<int8>>, heightMap: seq<int32>, sections: seq<Tag>,
                       entities: seq<Tag>, tileEntities: seq<Tag>, tileTicks: seq<Tag>)
    ensures var r := Assemble(x, z, lastUpdated, populated, inhabited, biomes, heightMap, sections,
                              entities, tileEntities, tileTicks);
      Lookup(r, HeightMapKey) == Some(TagArrayInt(heightMap)) &&
      Lookup(r, SectionsKey) == Some(TagList(sections))
  {
    BodyKeysDistinct();
  }

  /** The three entity lists sit under their keys. */
  lemma AssembleLists(x: int32, z: int32, lastUpdated: int64, populated: int8, inhabited: int64,
                      biomes: Option<seq<int8>>, heightMap: seq<int32>, sections: seq<Tag>,
                      entities: seq<Tag>, tileEntities: seq<Tag>, tileTicks: seq<Tag>)
    ensures var r := Assemble(x, z, lastUpdated, populated, inhabited, biomes, heightMap, sections,
                              entities, tileEntities, tileTicks);
      Lookup(r, EntitiesKey) == Some(TagList(entities)) &&
      Lookup(r, TileEntitiesKey) == Some(TagList(tileEntities)) &&
      Lookup(r, TileTicksKey) == Some(TagList(tileTicks))
  {
    BodyKeysDistinct();
  }

  /** The fields a serialised chunk's "Level" compound holds. */
  predicate HoldsFields(root: Entries, c: Chunk)
    requires Valid(c)
  {
    Lookup(root, XPosKey) == Some(TagInt(c.chunkX)) && Lookup(root, ZPosKey) == Some(TagInt(c.chunkZ)) &&
    Lookup(root, LastUpdateKey) == Some(TagLong(c.lastUpdated)) &&
    Lookup(root, PopulatedKey) == Some(TagByte(if c.populated then 1 else 0)) &&
    Lookup(root, InhabitedKey) == Some(TagLong(c.inhabitedTime)) &&
    Lookup(root, BiomesKey) == (if BiomesOf(c).None? then None else Some(TagArrayByte(c.biomes))) &&
    Lookup(root, HeightMapKey) == Some(TagArrayInt(c.heightMap)) &&
    Lookup(root, SectionsKey) == Some(TagList(SectionTags(c.sections))) &&
    Lookup(root, EntitiesKey) == Some(TagList(c.entities)) &&
    Lookup(root, TileEntitiesKey) == Some(TagList(c.tileEntities)) &&
    Lookup(root, TileTicksKey) == Some(TagList(c.tileTicks))
  }

  /** The "Level" compound `serialize` builds. */
  function Level(c: Chunk): (r: Entries)
    requires Valid(c)
    ensures UniqueNames(r)
  {
    Assemble(c.chunkX, c.chunkZ, c.lastUpdated, if c.populated then 1 else 0, c.inhabitedTime,
             BiomesOf(c), c.heightMap, SectionTags(c.sections), c.entities, c.tileEntities, c.tileTicks)
  }

  /** "Level" holds every field under its key, the biomes only when one of
      them is not -1. */
  lemma LevelFields(c: Chunk)
    requires Valid(c)
    ensures HoldsFields(Level(c), c)
  {
    var pop: int8 := if c.populated then 1 else 0;
    var secs := SectionTags(c.sections);
    AssembleHeader(c.chunkX, c.chunkZ, c.lastUpdated, pop, c.inhabitedTime,
                   BiomesOf(c), c.heightMap, secs, c.entities, c.tileEntities, c.tileTicks);
    AssembleBiomes(c.chunkX, c.chunkZ, c.lastUpdated, pop, c.inhabitedTime,
                   BiomesOf(c), c.heightMap, secs, c.entities, c.tileEntities, c.tileTicks);
    AssembleMiddle(c.chunkX, c.chunkZ, c.lastUpdated, pop, c.inhabitedTime,
                   BiomesOf(c), c.heightMap, secs, c.entities, c.tileEntities, c.tileTicks);
    AssembleLists(c.chunkX, c.chunkZ, c.lastUpdated, pop, c.inhabitedTime,
                  BiomesOf(c), c.heightMap, secs, c.entities, c.tileEntities, c.tileTicks);
  }

  /** The unnamed root compound around "Level"; reading "Level" back gives
      exactly the wrapped compound. */
  function Wrap(level: Entries): (n: NamedTag)
    ensures n.name == [] && n.value.TagCompound? && Keys(n.value.entries) == {LevelKey}
    ensures ReadLevel(n) == Ok(level)
  {
    var n := NamedTag([], TagCompound([NamedTag(LevelKey, TagCompound(level))]));
    assert Lookup(n.value.entries, LevelKey) == Some(TagCompound(level));
    n
  }

  /** `serialize`: an unnamed root whose only entry is the "Level"
      compound, which holds every field of the chunk under its key. */
  function Serialize(c: Chunk): (r: NamedTag)
    requires Valid(c) && ListsIntact(c)
    ensures r.name == [] && r.value.TagCompound? && Keys(r.value.entries) == {LevelKey}
    ensures ReadLevel(r).Ok? && HoldsFields(ReadLevel(r).value, c)
  {
    LevelFields(c);
    Wrap(Level(c))
  }

  // ---------------------------------------------------------------------
  // Deserialisation

  /** The "Level" compound of the root; the root and "Level" must be
      compounds. */
  function ReadLevel(from: NamedTag): (r: Result<Entries>)
    ensures !from.value.TagCompound? ==> r == Err(TypeMismatch)
    ensures from.value.TagCompound? && Lookup(from.value.entries, LevelKey).None? ==>
      r == Err(AbsentValue(LevelKey))
    ensures r.Ok? <==>
      (from.value.TagCompound? && Lookup(from.value.entries, LevelKey).Some? &&
       Lookup(from.value.entries, LevelKey).value.TagCompound?)
    ensures r.Ok? ==> Lookup(from.value.entries, LevelKey) == Some(TagCompound(r.value))
  {
    var top :- AsCompound(from.value);
    var level :- GetTag(top, LevelKey);
    AsCompound(level)
  }

  /** An optional long field: absent leaves `otherwise`, present must be a
      long. */
  function ReadLong(root: Entries, key: Name, otherwise: int64): (r: Result<int64>)
    ensures Lookup(root, key).None? ==> r == Ok(otherwise)
    ensures Lookup(root, key).Some? ==> (r.Ok? <==> Lookup(root, key).value.TagLong?)
    ensures Lookup(root, key).Some? && r.Ok? ==> Lookup(root, key) == Some(TagLong(r.value))
  {
    match Lookup(root, key)
    case None => Ok(otherwise)
    case Some(t) => Tags.GetLong(t)
  }

  /** "TerrainPopulated": absent leaves `otherwise`, present must be a byte
      and any non-zero byte means true. */
  function ReadPopulated(root: Entries, otherwise: bool): (r: Result<bool>)
    ensures Lookup(root, PopulatedKey).None? ==> r == Ok(otherwise)
    ensures Lookup(root, PopulatedKey).Some? ==> (r.Ok? <==> Lookup(root, PopulatedKey).value.TagByte?)
    ensures Lookup(root, PopulatedKey).Some? && r.Ok? ==>
      r.value == (Lookup(root, PopulatedKey).value.byteValue != 0)
  {
    match Lookup(root, PopulatedKey)
    case None => Ok(otherwise)
    case Some(t) =>
      var b :- Tags.GetByte(t);
      Ok(b != 0)
  }

  /** "Biomes": absent leaves `otherwise`; present must be a byte array of
      at least 256 entries, of which the first 256 are copied. */
  function ReadBiomes(root: Entries, otherwise: seq<int8>): (r: Result<seq<int8>>)
    ensures Lookup(root, BiomesKey).None? ==> r == Ok(otherwise)
    ensures Lookup(root, BiomesKey).Some? ==> (r.Ok? <==>
      Lookup(root, BiomesKey).value.TagArrayByte? && |Lookup(root, BiomesKey).value.bytes| >= Columns)
    ensures Lookup(root, BiomesKey).Some? && r.Ok? ==> r.value == Lookup(root, BiomesKey).value.bytes[..Columns]
  {
    match Lookup(root, BiomesKey)
    case None => Ok(otherwise)
    case Some(t) =>
      var a :- GetByteArray(t);
      if |a| < Columns then Err(IndexOutOfBounds(|a|)) else Ok(a[..Columns])
  }

  /** One element of "Sections" read as a section: it must be a compound
      holding one. */
  function DecodeSection(t: Tag): (r: Result<Sections.Section>)
    ensures !t.TagCompound? ==> r == Err(TypeMismatch)
    ensures r.Ok? ==> Sections.Valid(r.value)
  {
    var e :- AsCompound(t);
    Sections.Deserialize(e)
  }

  /** Every element of "Sections" read as a section. */
  function DecodeAll(ts: seq<Tag>): (rs: seq<Result<Sections.Section>>)
    ensures |rs| == |ts|
    ensures forall i | 0 <= i < |rs| :: rs[i].Ok? ==> Sections.Valid(rs[i].value)
  {
    seq(|ts|, i requires 0 <= i < |ts| => DecodeSection(ts[i]))
  }

  /** The assignment `chunk.sections[section.getChunkY()] = section`: a
      height outside the array fails. */
  function Place(acc: seq<Sections.Section>, r: Result<Sections.Section>): (out: Result<seq<Sections.Section>>)
    requires Stacked(acc)
    requires r.Ok? ==> Sections.Valid(r.value)
    ensures r.Err? ==> out == Err(r.error)
    ensures r.Ok? ==> (out.Ok? <==> 0 <= r.value.chunkY < |acc|)
    ensures r.Ok? && r.value.chunkY < 0 ==> out == Err(IndexOutOfBounds(r.value.chunkY))
    ensures out.Ok? ==> Stacked(out.value) && |out.value| == |acc|
    ensures out.Ok? ==> out.value[r.value.chunkY] == r.value
    ensures out.Ok? ==> forall i | 0 <= i < |acc| && i != r.value.chunkY :: out.value[i] == acc[i]
  {
    var s :- r;
    if 0 <= s.chunkY < |acc| then Ok(acc[s.chunkY := s]) else Err(IndexOutOfBounds(s.chunkY))
  }

  /** The read sections placed in order; the first failure stops. */
  function PlaceAll(acc: seq<Sections.Section>, rs: seq<Result<Sections.Section>>): (out: Result<seq<Sections.Section>>)
    requires Stacked(acc)
    requires forall i | 0 <= i < |rs| :: rs[i].Ok? ==> Sections.Valid(rs[i].value)
    ensures out.Ok? ==> Stacked(out.value) && |out.value| == |acc|
    ensures (forall i | 0 <= i < |rs| :: rs[i].Err?) && |rs| > 0 ==> out == Err(rs[0].error)
    ensures |rs| > 0 && rs[0].Err? ==> out == Err(rs[0].error)
    decreases |rs|
  {
    if |rs| == 0 then Ok(acc)
    else
      var prefix :- PlaceAll(acc, rs[..|rs| - 1]);
      Place(prefix, rs[|rs| - 1])
  }

  /** The first failed read stops the load: once the reads before it have
      been placed, the load fails with its error, whatever follows. */
  lemma {:induction false} PlaceAllStops(acc: seq<Sections.Section>, rs: seq<Result<Sections.Section>>, i: nat)
    requires Stacked(acc)
    requires forall j | 0 <= j < |rs| :: rs[j].Ok? ==> Sections.Valid(rs[j].value)
    requires i < |rs| && rs[i].Err? && PlaceAll(acc, rs[..i]).Ok?
    ensures PlaceAll(acc, rs) == Err(rs[i].error)
    decreases |rs|
  {
    var last := |rs| - 1;
    assert rs[..last][..i] == rs[..i];
    if i < last {
      PlaceAllStops(acc, rs[..last], i);
    }
  }

  /** The `forEach` over "Sections": each element is read and placed before
      the next is looked at.  Reading has no effect, so reading all first
      and placing them in order fails at the same element with the same
      error. */
  function LoadSections(acc: seq<Sections.Section>, ts: seq<Tag>): (r: Result<seq<Sections.Section>>)
    requires Stacked(acc)
    ensures r.Ok? ==> Stacked(r.value) && |r.value| == |acc|
  {
    PlaceAll(acc, DecodeAll(ts))
  }

  /** "Sections": absent leaves the sections the constructor made; present
      must be a list. */
  function ReadSections(root: Entries, acc: seq<Sections.Section>): (r: Result<seq<Sections.Section>>)
    requires Stacked(acc)
    ensures Lookup(root, SectionsKey).None? ==> r == Ok(acc)
    ensures r.Ok? ==> Stacked(r.value) && |r.value| == |acc|
  {
    match Lookup(root, SectionsKey)
    case None => Ok(acc)
    case Some(t) =>
      var items :- AsList(t);
      LoadSections(acc, items)
  }

  /** An entity list: absent leaves it empty; present must be a list, whose
      elements are taken unchecked. */
  function ReadList(root: Entries, key: Name): (r: Result<seq<Tag>>)
    ensures Lookup(root, key).None? ==> r == Ok([])
    ensures Lookup(root, key).Some? ==> (r.Ok? <==> Lookup(root, key).value.TagList?)
    ensures Lookup(root, key).Some? && r.Ok? ==> Lookup(root, key) == Some(TagList(r.value))
  {
    match Lookup(root, key)
    case None => Ok([])
    case Some(t) => AsList(t)
  }

  /** The chunk described by a "Level" compound, built on the constructor's
      defaults in the order the Java code reads the fields. */
  function ReadBody(p: WorldProperties, root: Entries): (r: Result<Chunk>)
    ensures r.Ok? ==> Valid(r.value) && |r.value.sections| == HeightInChunkSections(p)
    ensures r.Ok? ==> Lookup(root, XPosKey) == Some(TagInt(r.value.chunkX))
    ensures r.Ok? ==> Lookup(root, ZPosKey) == Some(TagInt(r.value.chunkZ))
    ensures r.Ok? ==> forall i | 0 <= i < Columns :: r.value.heightMap[i] == 0
    ensures Lookup(root, XPosKey).None? ==> r == Err(AbsentValue(XPosKey))
  {
    var x :- Compounds.GetInt(root, XPosKey);
    var z :- Compounds.GetInt(root, ZPosKey);
    var c :- NewChunk(p, x, z);
    var lastUpdated :- ReadLong(root, LastUpdateKey, c.lastUpdated);
    var populated :- ReadPopulated(root, c.populated);
    var inhabited :- ReadLong(root, InhabitedKey, c.inhabitedTime);
    var biomes :- ReadBiomes(root, c.biomes);
    var sections :- ReadSections(root, c.sections);
    var entities :- ReadList(root, EntitiesKey);
    var tileEntities :- ReadList(root, TileEntitiesKey);
    var tileTicks :- ReadList(root, TileTicksKey);
    Ok(c.(lastUpdated := lastUpdated, populated := populated, inhabitedTime := inhabited,
          biomes := biomes, sections := sections,
          entities := entities, tileEntities := tileEntities, tileTicks := tileTicks))
  }

  /** `deserialize`: the chunk of a root compound, for a world with the
      given properties. */
  function Deserialize(p: WorldProperties, from: NamedTag): (r: Result<Chunk>)
    ensures r.Ok? ==> Valid(r.value) && |r.value.sections| == HeightInChunkSections(p)
    ensures !from.value.TagCompound? ==> r == Err(TypeMismatch)
    ensures r.Ok? ==> ReadLevel(from).Ok? && ReadBody(p, ReadLevel(from).value) == r
  {
    var root :- ReadLevel(from);
    ReadBody(p, root)
  }

  // ---------------------------------------------------------------------
  // Round trip

  /** Sections `0 .. k-1` as a load of the first k sections' tags leaves
      them: the non-empty ones as they were, the others as constructed. */
  function Restored(ss: seq<Sections.Section>, k: int): (r: seq<Sections.Section>)
    requires Stacked(ss) && 0 <= k <= |ss|
    ensures Stacked(r) && |r| == |ss|
  {
    seq(|ss|, i requires 0 <= i < |ss| =>
      if i < k && !Sections.IsEmpty(ss[i]) then ss[i] else Sections.New(i))
  }

  /** What a chunk looks like after a round trip: the height map is not
      read back, biomes that are all -1 are not written, and an empty
      section comes back as a new one. */
  function Normalize(c: Chunk): (r: Chunk)
    requires Valid(c)
    ensures Valid(r)
  {
    c.(sections := Restored(c.sections, |c.sections|),
       biomes := if IsAll(-1, c.biomes) then seq(Columns, _ => 0) else c.biomes,
       heightMap := seq(Columns, _ => 0))
  }

  /** The successful reads of `xs`. */
  function Oks(xs: seq<Sections.Section>): (rs: seq<Result<Sections.Section>>)
    ensures |rs| == |xs| && forall i | 0 <= i < |xs| :: rs[i] == Ok(xs[i])
  {
    seq(|xs|, i requires 0 <= i < |xs| => Ok(xs[i]))
  }

  lemma OksSnoc(xs: seq<Sections.Section>, x: Sections.Section)
    ensures Oks(xs + [x]) == Oks(xs) + [Ok(x)]
  {
    assert forall i | 0 <= i < |xs| + 1 :: Oks(xs + [x])[i] == (Oks(xs) + [Ok(x)])[i];
  }

  /** Every serialised section whose cells fit their encodings reads back
      as itself. */
  lemma DecodeEncode(xs: seq<Sections.Section>)
    requires forall i | 0 <= i < |xs| :: Sections.Valid(xs[i]) && Sections.Storable(xs[i])
    ensures DecodeAll(Encode(xs)) == Oks(xs)
  {
    forall i | 0 <= i < |xs|
      ensures DecodeAll(Encode(xs))[i] == Ok(xs[i])
    {
      Sections.RoundTrip(xs[i]);
    }
  }

  /** Placing one more read. */
  lemma PlaceAllSnoc(acc: seq<Sections.Section>, rs: seq<Result<Sections.Section>>, r: Result<Sections.Section>)
    requires Stacked(acc)
    requires forall i | 0 <= i < |rs| :: rs[i].Ok? ==> Sections.Valid(rs[i].value)
    requires r.Ok? ==> Sections.Valid(r.value)
    ensures PlaceAll(acc, rs + [r]) ==
      match PlaceAll(acc, rs)
      case Ok(prefix) => Place(prefix, r)
      case Err(e) => Err(e)
  {
    assert (rs + [r])[..|rs|] == rs;
  }

  /** The non-empty sections among the first k end with section k-1 when it
      is not empty. */
  lemma NonEmptySnoc(ss: seq<Sections.Section>, k: int)
    requires forall i | 0 <= i < |ss| :: Sections.Valid(ss[i])
    requires 0 < k <= |ss|
    ensures NonEmpty(ss[..k]) ==
      NonEmpty(ss[..k - 1]) + (if Sections.IsEmpty(ss[k - 1]) then [] else [ss[k - 1]])
  {
    assert ss[..k][..k - 1] == ss[..k - 1];
  }

  /** An empty section is restored as the new section already there. */
  lemma RestoredEmptyStep(ss: seq<Sections.Section>, k: int)
    requires Stacked(ss) && 0 < k <= |ss| && Sections.IsEmpty(ss[k - 1])
    ensures Restored(ss, k) == Restored(ss, k - 1)
  {
    var a := Restored(ss, k);
    var b := Restored(ss, k - 1);
    forall i | 0 <= i < |ss|
      ensures a[i] == b[i]
    {
      if i == k - 1 {
        assert a[i] == Sections.New(i);
      }
    }
  }

  /** A non-empty section is restored by placing it. */
  lemma RestoredFullStep(ss: seq<Sections.Section>, k: int)
    requires Stacked(ss) && 0 < k <= |ss| && !Sections.IsEmpty(ss[k - 1])
    ensures Restored(ss, k - 1)[k - 1 := ss[k - 1]] == Restored(ss, k)
  {
    var a := Restored(ss, k - 1)[k - 1 := ss[k - 1]];
    var b := Restored(ss, k);
    forall i | 0 <= i < |ss|
      ensures a[i] == b[i]
    {
    }
  }

  /** The inductive step of `PlaceNonEmpty` for an empty section k-1. */
  lemma PlaceEmptyStep(ss: seq<Sections.Section>, k: int)
    requires Stacked(ss) && 0 < k <= |ss| && Sections.IsEmpty(ss[k - 1])
    requires PlaceAll(EmptySections(|ss|), Oks(NonEmpty(ss[..k - 1]))) == Ok(Restored(ss, k - 1))
    ensures PlaceAll(EmptySections(|ss|), Oks(NonEmpty(ss[..k]))) == Ok(Restored(ss, k))
  {
    NonEmptySnoc(ss, k);
    RestoredEmptyStep(ss, k);
    assert NonEmpty(ss[..k]) == NonEmpty(ss[..k - 1]);
  }

  /** The reads of the non-empty sections among the first k end with
      section k-1 when it is not empty. */
  lemma OksNonEmptySnoc(ss: seq<Sections.Section>, k: int)
    requires forall i | 0 <= i < |ss| :: Sections.Valid(ss[i])
    requires 0 < k <= |ss| && !Sections.IsEmpty(ss[k - 1])
    ensures Oks(NonEmpty(ss[..k])) == Oks(NonEmpty(ss[..k - 1])) + [Ok(ss[k - 1])]
  {
    NonEmptySnoc(ss, k);
    OksSnoc(NonEmpty(ss[..k - 1]), ss[k - 1]);
  }

  /** Placing section k-1 over the restored first k-1 sections. */
  lemma PlaceRestored(ss: seq<Sections.Section>, k: int)
    requires Stacked(ss) && 0 < k <= |ss| && !Sections.IsEmpty(ss[k - 1])
    ensures Place(Restored(ss, k - 1), Ok(ss[k - 1])) == Ok(Restored(ss, k))
  {
    var before := Restored(ss, k - 1);
    assert ss[k - 1].chunkY == k - 1;
    assert Place(before, Ok(ss[k - 1])) == Ok(before[k - 1 := ss[k - 1]]);
    RestoredFullStep(ss, k);
  }

  /** The inductive step of `PlaceNonEmpty` for a non-empty section k-1. */
  lemma PlaceFullStep(ss: seq<Sections.Section>, k: int)
    requires Stacked(ss) && 0 < k <= |ss| && !Sections.IsEmpty(ss[k - 1])
    requires PlaceAll(EmptySections(|ss|), Oks(NonEmpty(ss[..k - 1]))) == Ok(Restored(ss, k - 1))
    ensures PlaceAll(EmptySections(|ss|), Oks(NonEmpty(ss[..k]))) == Ok(Restored(ss, k))
  {
    OksNonEmptySnoc(ss, k);
    PlaceAllSnoc(EmptySections(|ss|), Oks(NonEmpty(ss[..k - 1])), Ok(ss[k - 1]));
    PlaceRestored(ss, k);
  }

  /** Placing nothing leaves the new sections, which is what restoring
      none of them gives. */
  lemma PlaceNone(ss: seq<Sections.Section>)
    requires Stacked(ss)
    ensures PlaceAll(EmptySections(|ss|), Oks(NonEmpty(ss[..0]))) == Ok(Restored(ss, 0))
  {
    assert Oks(NonEmpty(ss[..0])) == [];
    assert Restored(ss, 0) == EmptySections(|ss|);
  }

  /** Placing the reads of the non-empty sections among the first k
      restores them. */
  lemma {:induction false} PlaceNonEmpty(ss: seq<Sections.Section>, k: int)
    requires Stacked(ss) && 0 <= k <= |ss|
    ensures PlaceAll(EmptySections(|ss|), Oks(NonEmpty(ss[..k]))) == Ok(Restored(ss, k))
    decreases k
  {
    if k == 0 {
      PlaceNone(ss);
    } else {
      PlaceNonEmpty(ss, k - 1);
      PlaceStep(ss, k);
    }
  }

  /** The inductive step of `PlaceNonEmpty`, whichever section k-1 is. */
  lemma PlaceStep(ss: seq<Sections.Section>, k: int)
    requires Stacked(ss) && 0 < k <= |ss|
    requires PlaceAll(EmptySections(|ss|), Oks(NonEmpty(ss[..k - 1]))) == Ok(Restored(ss, k - 1))
    ensures PlaceAll(EmptySections(|ss|), Oks(NonEmpty(ss[..k]))) == Ok(Restored(ss, k))
  {
    if Sections.IsEmpty(ss[k - 1]) {
      PlaceEmptyStep(ss, k);
    } else {
      PlaceFullStep(ss, k);
    }
  }

  /** Loading the "Sections" list of a stack of storable sections restores
      the non-empty ones and leaves new sections elsewhere. */
  lemma LoadSectionTags(ss: seq<Sections.Section>)
    requires Stacked(ss)
    requires forall i | 0 <= i < |ss| :: Sections.Storable(ss[i])
    ensures LoadSections(EmptySections(|ss|), SectionTags(ss)) == Ok(Restored(ss, |ss|))
  {
    var xs := NonEmpty(ss);
    NonEmptyMembers(ss);
    assert forall j | 0 <= j < |xs| :: Sections.Storable(xs[j]);
    DecodeEncode(xs);
    PlaceNonEmpty(ss, |ss|);
    assert ss[..|ss|] == ss;
  }

  /** Reading the fields back gives the normalised chunk. */
  /** Each scalar and list read finds what `serialize` stored under its key. */
  lemma ReadScalarsOf(root: Entries, c: Chunk, c0: Chunk)
    requires Valid(c) && HoldsFields(root, c)
    ensures ReadLong(root, LastUpdateKey, c0.lastUpdated) == Ok(c.lastUpdated)
    ensures ReadPopulated(root, c0.populated) == Ok(c.populated)
    ensures ReadLong(root, InhabitedKey, c0.inhabitedTime) == Ok(c.inhabitedTime)
    ensures ReadList(root, EntitiesKey) == Ok(c.entities)
    ensures ReadList(root, TileEntitiesKey) == Ok(c.tileEntities)
    ensures ReadList(root, TileTicksKey) == Ok(c.tileTicks)
  {
  }

  /** The biomes and sections read back in their normalised form. */
  lemma ReadArraysOf(p: WorldProperties, root: Entries, c: Chunk, c0: Chunk)
    requires Valid(c) && |c.sections| == HeightInChunkSections(p)
    requires forall i | 0 <= i < |c.sections| :: Sections.Storable(c.sections[i])
    requires HoldsFields(root, c) && NewChunk(p, c.chunkX, c.chunkZ) == Ok(c0)
    ensures ReadBiomes(root, c0.biomes) == Ok(Normalize(c).biomes)
    ensures ReadSections(root, c0.sections) == Ok(Normalize(c).sections)
  {
    LoadSectionTags(c.sections);
    assert ReadSections(root, c0.sections) == Ok(Restored(c.sections, |c.sections|));
    assert c.biomes[..Columns] == c.biomes;
  }

  lemma ReadBodyOf(p: WorldProperties, root: Entries, c: Chunk)
    requires Valid(c) && |c.sections| == HeightInChunkSections(p)
    requires forall i | 0 <= i < |c.sections| :: Sections.Storable(c.sections[i])
    requires HoldsFields(root, c)
    ensures ReadBody(p, root) == Ok(Normalize(c))
  {
    var c0 := NewChunk(p, c.chunkX, c.chunkZ).value;
    ReadScalarsOf(root, c, c0);
    ReadArraysOf(p, root, c, c0);
    assert c0.heightMap == Normalize(c).heightMap;
  }

  /** Every chunk whose sections hold 12-bit ids and 4-bit values, in a
      world of its height, reads back as its normalised form. */
  lemma RoundTrip(p: WorldProperties, c: Chunk)
    requires Valid(c) && ListsIntact(c) && |c.sections| == HeightInChunkSections(p)
    requires forall i | 0 <= i < |c.sections| :: Sections.Storable(c.sections[i])
    ensures Deserialize(p, Serialize(c)) == Ok(Normalize(c))
  {
    var level := Level(c);
    LevelFields(c);
    assert HoldsFields(level, c);
    ReadBodyOf(p, level, c);
  }
}
