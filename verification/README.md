# Columbus in Dafny

Columbus is a small Java library that builds Minecraft (Anvil format) worlds
in memory and writes them to disk. This project models its core as pure
Dafny functions over immutable values and proves properties of them.

- **NBT.** The tag tree has eleven variants, with type ids 1 to 11. Compounds
  hold uniquely named entries and support add/overwrite, remove, optional
  lookup, deep path lookup and the typed getters. Lists must hold one element
  type. The binary codec writes big-endian integers, 2-byte-length-prefixed
  names, `0`-terminated compounds and length-prefixed lists and arrays.
  Decoding an encoding gives back the tag, whatever the order in which
  compound entries were written.
- **Voxel packing.** `Util` packs nibbles (`half` and `twice`), splits block
  ids into low and high bytes (`split` and `merge`) and tests arrays for a
  value (`isAll`).
- **Sections and chunks.** A chunk section is 16×16×16 cells of block id,
  block data, sky light and block light. A chunk is a column of sections
  plus a biome array, a height map and its coordinates. The model covers
  their accessors, the height-map scan against a `Lighter` opacity table,
  `fullbright`, and the conversion to and from tag trees.
- **World and region files.** A world keeps chunks in a map under a 64-bit
  key. A region file covers 32×32 chunks. It has an 8 KiB header of
  location and timestamp words, then the chunk payloads in 4 KiB sectors
  that are allocated contiguously from sector 2. The reader sorts the
  present slots by sector and skips forward.
- **Satellites.** These are the `.schematic` loader, schematic block access
  and the copier that pastes a schematic into a world, the entity and
  tile-entity coordinate accessors, `level.dat` (`Level.serialize` and
  `setRule`) and `WorldProperties`.

Some things become parameters:

- **Compression.** zlib in region payloads is a `RegionFiles.Codec` pair of
  functions. Lemmas that need it to invert assume it through the predicate
  `Inverse`.
- **The game-rule map's iteration order.** Java's `HashMap` order is the
  parameter `order` of `Levels.Serialize`. Lemmas show that what a reader
  finds does not depend on it.
- **The region reader's chunk loader and storage key.** These are the
  parameters `load` and `key` of `Regions.ReadRegionWith`.
  `RegionFiles.ReadRegion` instantiates them as the source does, and
  `RegionFiles.ReadRegionAt` as it evidently should.

Java's fixed-width integers are subset types of `int` (`int8` to `int64`).
Casts, shifts and products wrap explicitly where the source relies on them.
Bytes on the wire are ints in 0..255. Names and strings are their modified
UTF-8 bytes.

Two behaviours of the region format code are kept as written. The sector
count is only an observation: it wastes a sector but loses nothing, so it
has no row under "Findings". The region keys are the third row there.

- **Sector count.** A chunk's frame is its payload plus 5 bytes (a 4-byte
  length and a compression byte). The writer gives it
  `((len + 5) >> 12) + 1` sectors. That is the number of 4 KiB sectors the
  frame needs, except when `len + 5` is a multiple of 4096, where it is one
  more: a 4091-byte payload makes a 4096-byte frame that one sector holds,
  yet it is given 2 (`Regions.SectorCountExamples`).
- **Region keys.** The reader stores the chunk of slot `i` under the
  region-local coordinates `(i & 31, i >> 5)` rather than its world
  coordinates, so the chunks of every region other than (0, 0) land under
  the wrong key. `RegionFiles.ReadRegionAt` is the corrected reader.

## Model

| member | source | states |
|---|---|---|
| TagTypes.Id | src/main/java/at/yawk/columbus/nbt/TagType.java:18-78 | every type's id lies in 1..11, the table BYTE 1 … ARRAY_INT 11 |
| TagTypes.ForId | src/main/java/at/yawk/columbus/nbt/TagType.java:60-92 | an id names a type exactly when 0 < id < 12, and the type found carries that id; any other id (0 included) is a format error |
| TagTypes.ForIdOfId | src/main/java/at/yawk/columbus/nbt/TagType.java:60-68 | the table is consistent: every type is found under its own id, and two types share an id only if they are the same type |
| Tags.NewInstance | src/main/java/at/yawk/columbus/nbt/TagType.java:80-86 | the default instance has the requested type; numbers are zero (floats as the +0.0 bit pattern), lists and compounds are empty, and strings and arrays are empty where Java leaves them null |
| Tags.GetByte | src/main/java/at/yawk/columbus/nbt/Tag.java:26-33 | succeeds exactly on a byte tag and returns its value; any other variant is a type mismatch |
| Tags.GetShort | src/main/java/at/yawk/columbus/nbt/Tag.java:35-42 | succeeds exactly on a short tag and returns its value; otherwise a type mismatch |
| Tags.GetInt | src/main/java/at/yawk/columbus/nbt/Tag.java:44-51 | succeeds exactly on an int tag and returns its value; otherwise a type mismatch |
| Tags.GetLong | src/main/java/at/yawk/columbus/nbt/TagCompound.java:196-198 | the long accessor used here succeeds exactly on a long tag; otherwise a type mismatch |
| Tags.GetFloat | src/main/java/at/yawk/columbus/nbt/Tag.java:53-60 | succeeds exactly on a float tag and returns its bit pattern; otherwise a type mismatch |
| Tags.GetDouble | src/main/java/at/yawk/columbus/nbt/Tag.java:62-69 | succeeds exactly on a double tag and returns its bit pattern; otherwise a type mismatch |
| Tags.GetString | src/main/java/at/yawk/columbus/nbt/Tag.java:71-78 | succeeds exactly on a string tag and returns its text; otherwise a type mismatch |
| Tags.AsCompound | src/main/java/at/yawk/columbus/nbt/TagCompound.java:100-107 | the compound cast used by `getTagDeep` succeeds exactly on a compound; otherwise a type mismatch |
| Tags.GetNumber | src/main/java/at/yawk/columbus/nbt/TagCompound.java:226-228 | a numeric tag yields its value boxed by kind; strings, arrays, lists and compounds fail with a type mismatch |
| Tags.StringAccess | src/main/java/at/yawk/columbus/nbt/Tag.java:71-78 | a string tag returns its text and refuses numeric and byte access |
| Tags.ByteAccess | src/main/java/at/yawk/columbus/nbt/Tag.java:62-69 | a byte tag gives its value to `getByte` and `getNumber`, while the strict `getDouble` cast refuses it with a type mismatch |
| Tags.CloneEqual | src/main/java/at/yawk/columbus/nbt/Tag.java:80-84 | a deep clone is equal to the original at every depth |
| Tags.CloneNamedEqual | src/main/java/at/yawk/columbus/nbt/NamedTag.java:14-16 | a named tag's clone keeps the name and equals the original |
| Lists.AllOfType | src/main/java/at/yawk/columbus/nbt/TagList.java:35-48 | true exactly when every element has the given type |
| Lists.CheckListIntegrity | src/main/java/at/yawk/columbus/nbt/TagList.java:35-48 | true exactly when all elements share one type; the empty list passes |
| Lists.ElementType | src/main/java/at/yawk/columbus/nbt/TagList.java:86 | the announced element type is BYTE for an empty list and otherwise a type every element of a homogeneous list has |
| Lists.AddTag | src/main/java/at/yawk/columbus/nbt/TagList.java:76-78 | appends at the end, keeping the earlier elements in order |
| Lists.AddTagIntegrity | src/main/java/at/yawk/columbus/nbt/TagList.java:76-78 | appending keeps the list homogeneous exactly when the list was homogeneous and the new tag has its type (or the list was empty) |
| Lists.AddTagUnchecked | src/main/java/at/yawk/columbus/nbt/TagList.java:76-78 | appending an int to a list of bytes yields a list that fails the integrity check: `addTag` does not check |
| Compounds.UniqueNamesPairwise | src/main/java/at/yawk/columbus/nbt/TagCompound.java:23-63 | a compound keyed by name has no name twice: the recursive definition agrees with pairwise distinctness |
| Compounds.Lookup | src/main/java/at/yawk/columbus/nbt/TagCompound.java:117-122 | `getOptional` is empty exactly for a missing name, and what it finds is an entry under that name |
| Compounds.LookupEntry | src/main/java/at/yawk/columbus/nbt/TagCompound.java:117-122 | in a compound without repeated names, each entry is what a lookup of its name finds |
| Compounds.Put | src/main/java/at/yawk/columbus/nbt/TagCompound.java:51-56 | after `addTag(name, t)` the name holds `t`, every other name holds what it held, and the key set gains only the name |
| Compounds.PutFresh | src/main/java/at/yawk/columbus/nbt/TagCompound.java:51-56 | adding a name not yet present appends it at the end |
| Compounds.PutUnique | src/main/java/at/yawk/columbus/nbt/TagCompound.java:51-56 | adding never creates a repeated name |
| Compounds.AddNamed | src/main/java/at/yawk/columbus/nbt/TagCompound.java:58-63 | `addTag(NamedTag)` stores the entry under its own name and leaves every other name alone |
| Compounds.Remove | src/main/java/at/yawk/columbus/nbt/TagCompound.java:124-129 | `removeTag` makes the name absent, changes no other name, and does nothing when the name is absent |
| Compounds.HasTag | src/main/java/at/yawk/columbus/nbt/TagCompound.java:110-115 | true exactly when the name is present |
| Compounds.GetTag | src/main/java/at/yawk/columbus/nbt/TagCompound.java:65-72 | fails with an absent-value error naming the key exactly when the key is missing, else returns the stored tag |
| Compounds.GetTagDeep | src/main/java/at/yawk/columbus/nbt/TagCompound.java:92-108 | the empty path yields the compound itself and a one-name path is `getTag` |
| Compounds.GetTagDeepChain | src/main/java/at/yawk/columbus/nbt/TagCompound.java:74-108 | a deep lookup equals the chain `getTag(a).asCompound().getTag(b)…`, failing at the first absent or non-compound link |
| Compounds.GetByte | src/main/java/at/yawk/columbus/nbt/TagCompound.java:160-168 | a missing name is an absent-value error; success exactly when the entry is a byte, returning its value; otherwise a type mismatch |
| Compounds.GetShort | src/main/java/at/yawk/columbus/nbt/TagCompound.java:170-178 | as `getByte`, for shorts |
| Compounds.GetInt | src/main/java/at/yawk/columbus/nbt/TagCompound.java:180-188 | as `getByte`, for ints |
| Compounds.GetLong | src/main/java/at/yawk/columbus/nbt/TagCompound.java:190-198 | as `getByte`, for longs |
| Compounds.GetFloat | src/main/java/at/yawk/columbus/nbt/TagCompound.java:200-208 | as `getByte`, for float bit patterns |
| Compounds.GetDouble | src/main/java/at/yawk/columbus/nbt/TagCompound.java:210-218 | as `getByte`, for double bit patterns |
| Compounds.GetNumber | src/main/java/at/yawk/columbus/nbt/TagCompound.java:220-228 | a missing name is an absent-value error; success exactly on a numeric entry, giving the boxed value |
| Compounds.GetString | src/main/java/at/yawk/columbus/nbt/TagCompound.java:230-238 | as `getByte`, for strings |
| Compounds.LastValue | src/main/java/at/yawk/columbus/nbt/TagCompound.java:144-158 | the value decoding keeps for a name is that of its last occurrence, present exactly when the name occurs |
| Compounds.PutAllFresh | src/main/java/at/yawk/columbus/nbt/TagCompound.java:144-158 | storing entries with new, distinct names one after another appends them in order |
| Compounds.PutAllLastWins | src/main/java/at/yawk/columbus/nbt/TagCompound.java:144-158 | after storing a sequence of entries, a name that occurs holds its last occurrence's value and any other name keeps its earlier value |
| Compounds.LastValueReordered | src/main/java/at/yawk/columbus/nbt/TagCompound.java:132-141 | emitting a compound's entries in any order does not change which value each name's last occurrence carries |
| Lists.SetTags | src/main/java/at/yawk/columbus/nbt/TagList.java:26-56 | the constructor and `setTags` accept the tags exactly when they all share one type, keeping them in order; a mixed list fails the assertion |
| Lists.SetTagsAddTag | src/main/java/at/yawk/columbus/nbt/TagList.java:53-78 | a list accepted by `setTags` stays acceptable after appending tags exactly when they all have its announced element type (for an empty list, when they share one type) |
| Bytes.ReadWriteSigned | src/main/java/at/yawk/columbus/nbt/TagInt.java:22-30 | reading `n` big-endian bytes back from what writing the signed value wrote returns the same value and exactly the bytes after it |
| Bytes.Sign8Unsign8 | src/main/java/at/yawk/columbus/nbt/TagArrayByte.java:23-35 | writing a byte[] and reading the same count of octets back gives the original signed bytes |
| Bytes.ReadWriteInts | src/main/java/at/yawk/columbus/nbt/TagArrayInt.java:24-40 | the four-bytes-per-element encoding of an int[] reads back as the same int[] |
| Nbt.WriteUtf | src/main/java/at/yawk/columbus/nbt/TagString.java:20-22 | a string is written as its 16-bit length followed by its bytes |
| Nbt.ReadUtf | src/main/java/at/yawk/columbus/nbt/TagString.java:25-27 | a successful read consumes exactly a length prefix and that many bytes, i.e. the input is `WriteUtf` of the string read followed by the rest; a short input is an end-of-input error |
| Nbt.ListElementType | src/main/java/at/yawk/columbus/nbt/TagList.java:95-97 | the element type byte of a list: 0 reads as BYTE, 1..11 as the type with that id, anything else is an unknown-type error |
| Nbt.TypeFromId | src/main/java/at/yawk/columbus/nbt/NBT.java:26-28 | the type byte of a named tag is accepted exactly when it lies in 1..11 and then names the type with that id; 0 and every other id is an unknown-type error |
| Nbt.DecodePayload | src/main/java/at/yawk/columbus/nbt/NBT.java:30-31 | a decoded payload has the type that was asked for, is well formed (so it can be written again) and consumes at least one byte |
| Nbt.DecodeByteArray | src/main/java/at/yawk/columbus/nbt/TagArrayByte.java:30-35 | a decoded byte array is well formed and consumes input; a negative length is a negative-size error |
| Nbt.DecodeIntArray | src/main/java/at/yawk/columbus/nbt/TagArrayInt.java:33-40 | a decoded int array consumed exactly 4 bytes of count and 4 bytes per element; a negative 32-bit `length << 2` fails as a negative size and a short input as end of input, before any element is read |
| Nbt.DecodeList | src/main/java/at/yawk/columbus/nbt/TagList.java:95-106 | a decoded list is well formed: every element has the element type read from the stream |
| Nbt.DecodeCompound | src/main/java/at/yawk/columbus/nbt/TagCompound.java:144-158 | a decoded compound is well formed: no name occurs twice in it |
| Nbt.DecodeItems | src/main/java/at/yawk/columbus/nbt/TagList.java:100-104 | exactly `n` payloads are read, all of the element type |
| Nbt.DecodeEntries | src/main/java/at/yawk/columbus/nbt/TagCompound.java:144-158 | entries are read until the end byte 0 and stored by name, so the result never holds a name twice |
| Nbt.PutEncodable | src/main/java/at/yawk/columbus/nbt/TagCompound.java:54-56 | storing a writable tag under a writable name keeps the compound writable |
| Nbt.Serialize | src/main/java/at/yawk/columbus/nbt/NBT.java:38-42 | the output starts with the type id, then the 16-bit name length and the name bytes |
| Nbt.Deserialize | src/main/java/at/yawk/columbus/nbt/NBT.java:26-33 | a successful read yields a well-formed named tag; a first byte outside 1..11 is an unknown-type error |
| Nbt.DeserializeArray | src/main/java/at/yawk/columbus/nbt/NBT.java:77-79 | reading from a byte array succeeds exactly when reading the stream does and yields the same tag, ignoring trailing bytes |
| NbtRoundTrip.ReadUtfWriteUtf | src/main/java/at/yawk/columbus/nbt/TagString.java:20-27 | `readUTF` of what `writeUTF` wrote returns the string and exactly the bytes that follow |
| NbtRoundTrip.PayloadRoundTrip | src/main/java/at/yawk/columbus/nbt/Tag.java:22-24 | every well-formed tag's payload decodes, under that tag's type, back to the same tag and leaves the following bytes untouched |
| NbtRoundTrip.ScalarRoundTrip | src/main/java/at/yawk/columbus/nbt/TagInt.java:22-30 | the fixed-width and string payloads decode back to the tag that wrote them |
| NbtRoundTrip.ByteRoundTrip | src/main/java/at/yawk/columbus/nbt/TagByte.java:23-30 | a byte payload reads back as the same byte |
| NbtRoundTrip.ShortRoundTrip | src/main/java/at/yawk/columbus/nbt/TagShort.java:23-30 | a short payload reads back as the same short |
| NbtRoundTrip.IntRoundTrip | src/main/java/at/yawk/columbus/nbt/TagInt.java:23-30 | an int payload reads back as the same int |
| NbtRoundTrip.LongRoundTrip | src/main/java/at/yawk/columbus/nbt/TagLong.java:23-30 | a long payload reads back as the same long |
| NbtRoundTrip.FloatRoundTrip | src/main/java/at/yawk/columbus/nbt/TagFloat.java:23-30 | a float payload reads back as the same 32-bit pattern |
| NbtRoundTrip.DoubleRoundTrip | src/main/java/at/yawk/columbus/nbt/TagDouble.java:23-30 | a double payload reads back as the same 64-bit pattern |
| NbtRoundTrip.StringRoundTrip | src/main/java/at/yawk/columbus/nbt/TagString.java:20-27 | a string payload shorter than 65536 bytes reads back as the same string |
| NbtRoundTrip.ByteArrayRoundTrip | src/main/java/at/yawk/columbus/nbt/TagArrayByte.java:23-35 | a byte array payload reads back as the same array |
| NbtRoundTrip.IntArrayRoundTrip | src/main/java/at/yawk/columbus/nbt/TagArrayInt.java:24-40 | an int array payload whose byte size fits an int reads back as the same array |
| NbtRoundTrip.ListRoundTrip | src/main/java/at/yawk/columbus/nbt/TagList.java:81-106 | a homogeneous list reads back as the same list: element type, count and every element |
| NbtRoundTrip.CompoundRoundTrip | src/main/java/at/yawk/columbus/nbt/TagCompound.java:132-158 | a compound without repeated names reads back as the same compound, entries in the same order |
| NbtRoundTrip.ItemsRoundTrip | src/main/java/at/yawk/columbus/nbt/TagList.java:88-104 | the payloads of a list's elements read back, under the element type, as the same elements |
| NbtRoundTrip.EntriesRoundTrip | src/main/java/at/yawk/columbus/nbt/TagCompound.java:144-158 | reading a run of written entries stores each in turn into the compound being built, whether or not names repeat |
| NbtRoundTrip.SerializeRoundTrip | src/main/java/at/yawk/columbus/nbt/NBT.java:26-42 | `deserialize(serialize(t))` is `t` for every writable named tag, and the bytes after it are left unread |
| NbtRoundTrip.ArrayRoundTrip | src/main/java/at/yawk/columbus/nbt/NBT.java:77-92 | `deserializeArray(serializeArray(t))` is `t` for every writable named tag |
| NbtRoundTrip.DecodeLastWins | src/main/java/at/yawk/columbus/nbt/TagCompound.java:150-156 | when a name occurs more than once in the stream, the compound read keeps the value of its last occurrence, and reading never fails on such a stream |
| NbtRoundTrip.DecodeAnyOrder | src/main/java/at/yawk/columbus/nbt/TagCompound.java:132-158 | whatever order a compound's entries are written in (the Java compound writes them in hash order), reading them back maps every name to the same tag as the original |
| NbtExample.StringDocumentBytes | src/test/java/at/yawk/columbus/nbt/NbtTest.java:33 | a root compound holding one string entry is written as compound id, root name, string id, entry name, text and the end byte |
| NbtExample.SmallDocumentBytes | src/test/java/at/yawk/columbus/nbt/NbtTest.java:89-98 | the small test document, compound "hello world" holding "name" = "Bananrama", is written as 10, 0, 11, "hello world", 8, 0, 4, "name", 0, 9, "Bananrama", 0 |
| Util.IsAll | src/main/java/at/yawk/columbus/Util.java:18-38 | true exactly when every element equals the value (true on the empty array) |
| Util.IsAllZero | src/main/java/at/yawk/columbus/Util.java:14-29 | true exactly when every element is zero; the same as `isAll(0, array)` |
| Util.PackSplitNibbles | src/main/java/at/yawk/columbus/Util.java:40-56 | packing the low and high nibble of a byte gives back that byte |
| Util.Half | src/main/java/at/yawk/columbus/Util.java:40-47 | an even-length array of nibbles becomes half as many bytes, byte `i` holding element `2i` in its low and element `2i + 1` in its high nibble (only the low four bits of each element count) |
| Util.Twice | src/main/java/at/yawk/columbus/Util.java:49-56 | each byte becomes two elements, its low nibble then its high nibble, each in 0..15 |
| Util.HalfTwice | src/main/java/at/yawk/columbus/Util.java:40-56 | `half(twice(b)) == b` for every byte array |
| Util.TwiceHalf | src/main/java/at/yawk/columbus/Util.java:40-56 | `twice(half(a)) == a` for every even-length array of values in 0..15 |
| Util.HalfLowNibbles | src/main/java/at/yawk/columbus/Util.java:40-47 | `half` depends only on the low nibble of each element |
| Util.Split | src/main/java/at/yawk/columbus/Util.java:58-65 | two arrays of the input's length holding the low and the high byte of each short |
| Util.Merge | src/main/java/at/yawk/columbus/Util.java:67-74 | a short per position whose low byte is `lower[i]` and whose high byte is `upper[i]` |
| Util.MergeSplit | src/main/java/at/yawk/columbus/Util.java:58-74 | merging the two halves of a split gives back every short |
| Util.SplitMerge | src/main/java/at/yawk/columbus/Util.java:58-74 | splitting a merge gives back both byte arrays |
| Util.HalfExample | src/test/java/at/yawk/columbus/UtilTest.java:28-40 | the unit test's nibbles E F 6 C 8 3 pack to FE C6 38 |
| Util.SplitExample | src/test/java/at/yawk/columbus/UtilTest.java:60-77 | the short 0xABCD splits into low byte 0xCD and high byte 0xAB |
| Lighters.Empty | src/main/java/at/yawk/columbus/Lighter.java:17 | a new lighter knows no block id |
| Lighters.Lookup | src/main/java/at/yawk/columbus/Lighter.java:23-25 | the stored data of a known id, and opacity 0 / brightness 0 for an unknown one |
| Lighters.PutBlockLightData | src/main/java/at/yawk/columbus/Lighter.java:30-32 | the id now reads back the given opacity and brightness; every other id is unchanged |
| Lighters.GetOpacity | src/main/java/at/yawk/columbus/Lighter.java:37-39 | the stored opacity of a known id, 0 for an unknown one |
| Lighters.OpacityOfUnknown | src/main/java/at/yawk/columbus/Lighter.java:50 | every id is transparent in a lighter that knows nothing |
| Lighters.OpacityAfterPut | src/main/java/at/yawk/columbus/Lighter.java:30-39 | after a put, `getOpacity` returns the new opacity for that id and the old one for every other id, so a second put overwrites the first |
| Lighters.PutDefaultBlockLightData | src/main/java/at/yawk/columbus/Lighter.java:44-46 | every id of the default table reads back its row of the table; every other id keeps what it had |
| Lighters.DefaultOpacities | src/main/java/at/yawk/columbus/Tables.java:16-25 | in the default table stone (1) has opacity 255, water (8) opacity 3, and lava (10) opacity 0 and brightness 15 |
| Lighters.DefaultAir | src/main/java/at/yawk/columbus/Tables.java:16-17 | air (0) is not in the default table and stays transparent |
| WorldProps.Make | src/main/java/at/yawk/columbus/WorldProperties.java:18-21 | a height that is a multiple of 16 is kept, and is 16 times the section count |
| WorldProps.HeightInChunkSections | src/main/java/at/yawk/columbus/WorldProperties.java:26-28 | `height >> 4`: the section count `n` satisfies `16n <= height < 16n + 16` |
| WorldProps.PropertiesByValue | src/main/java/at/yawk/columbus/WorldProperties.java:8-28 | properties are equal values exactly when their heights are equal, and so are their section counts |
| Sections.New | src/main/java/at/yawk/columbus/ChunkSection.java:15-47 | a new section has the given layer and 4096 cells of air, data 0 and no light |
| Sections.GetIndex | src/main/java/at/yawk/columbus/ChunkSection.java:192-194 | every coordinate triple, negative ones included, maps to a cell index in 0..4095 |
| Sections.IndexFields | src/main/java/at/yawk/columbus/ChunkSection.java:192-194 | the index holds x mod 16 in its low four bits, then z mod 16, then y mod 16 |
| Sections.IndexOfCoords | src/main/java/at/yawk/columbus/ChunkSection.java:192-194 | every cell index is reached by some coordinates in 0..15 |
| Sections.IndexInjective | src/main/java/at/yawk/columbus/ChunkSection.java:110-194 | two coordinate triples address the same cell exactly when they agree modulo 16 on every axis, so any origin (section, chunk, region or world) may be used |
| Sections.SetBlock | src/main/java/at/yawk/columbus/ChunkSection.java:136-140 | the addressed cell reads back the new id and data; every other cell and every light value is unchanged |
| Sections.SetLightSky | src/main/java/at/yawk/columbus/ChunkSection.java:158-160 | the addressed cell reads back the new sky light; nothing else changes |
| Sections.SetLightBlock | src/main/java/at/yawk/columbus/ChunkSection.java:178-180 | the addressed cell reads back the new block light; nothing else changes |
| Sections.SetBlockThenGet | src/main/java/at/yawk/columbus/ChunkSection.java:116-140 | reading any cell after `setBlock` gives the new id and data at the written cell and the old values everywhere else |
| Sections.SetLightThenGet | src/main/java/at/yawk/columbus/ChunkSection.java:148-180 | reading any cell after a light setter gives the new light at the written cell and the old value everywhere else |
| Sections.HighestFrom | src/main/java/at/yawk/columbus/ChunkSection.java:56-61 | the downward scan returns the first y from the top whose block has non-zero opacity, or -1; every cell above it is transparent |
| Sections.GetHighestBlock | src/main/java/at/yawk/columbus/ChunkSection.java:55-62 | the result is -1 or a y in 0..15 whose block is opaque, and every block above it in the column is transparent |
| Sections.IsEmpty | src/main/java/at/yawk/columbus/ChunkSection.java:67-69 | true exactly when every block id is 0 |
| Sections.NewIsEmpty | src/main/java/at/yawk/columbus/ChunkSection.java:35-69 | a freshly constructed section is empty |
| Sections.Fullbright | src/main/java/at/yawk/columbus/ChunkSection.java:185-187 | every sky-light cell becomes 15; blocks, data and block light are unchanged |
| Sections.Build | src/main/java/at/yawk/columbus/ChunkSection.java:74-86 | the assembled compound holds each of the six keys with the given value ("Add" only when given) and no name twice |
| Sections.BuildAdd | src/main/java/at/yawk/columbus/ChunkSection.java:79-81 | "Add" is stored only when there is an array to add; every other key is unchanged |
| Sections.AddOf | src/main/java/at/yawk/columbus/ChunkSection.java:77-81 | the "Add" array is omitted exactly when every high id byte is zero |
| Sections.Serialize | src/main/java/at/yawk/columbus/ChunkSection.java:74-86 | "Y" holds the layer, "Blocks" the low id bytes, "Add" the packed high bytes exactly when one is non-zero, and "Data", "BlockLight", "SkyLight" the packed 4-bit fields |
| Sections.CopyCells | src/main/java/at/yawk/columbus/ChunkSection.java:96-105 | the copy takes the first 4096 entries, and fails with an index error exactly when the source is shorter |
| Sections.GetNibbles | src/main/java/at/yawk/columbus/ChunkSection.java:98-104 | reading a field succeeds exactly when its key holds a byte array, and then unpacks it with `twice`; a missing key is an error |
| Sections.GetUpper | src/main/java/at/yawk/columbus/ChunkSection.java:92-94 | the high bytes are the unpacked "Add" array, or 4096 zeros when there is no "Add" |
| Sections.Deserialize | src/main/java/at/yawk/columbus/ChunkSection.java:88-108 | a read section is well shaped and has the layer stored under "Y"; a missing "Y" or "Blocks" is an absent-value error, a "Blocks" of another type a type mismatch |
| Sections.ReadNibbleFields | src/main/java/at/yawk/columbus/ChunkSection.java:98-107 | a successful read keeps the layer and ids already read and fills the three 4-bit fields |
| Sections.UpperRoundTrip | src/main/java/at/yawk/columbus/ChunkSection.java:77-95 | the high id bytes read back as written, whether or not "Add" was emitted |
| Sections.NibblesRoundTrip | src/main/java/at/yawk/columbus/ChunkSection.java:82-105 | a 4-bit field packed by `half` reads back unchanged |
| Sections.RoundTrip | src/main/java/at/yawk/columbus/ChunkSection.java:74-108 | `deserialize(serialize(s)) == s` for every section whose ids fit 12 bits and whose data and light fit 4 bits |
| Sections.NibbleFieldsRoundTrip | src/main/java/at/yawk/columbus/ChunkSection.java:82-105 | the data and both light fields of such a section read back as written |
| Chunks.EmptySections | src/main/java/at/yawk/columbus/Chunk.java:72-75 | the constructor's loop creates `n` sections, section `i` being a new empty section at layer `i` |
| Chunks.NewChunk | src/main/java/at/yawk/columbus/Chunk.java:37-76 | a chunk is created exactly when the world's section count lies in 0..127 (a negative count fails allocating the array, 128 or more overflows the byte loop counter); it then has that many empty sections, zero biomes and heights, the given position, the field defaults and empty entity lists |
| Chunks.ColumnIndex | src/main/java/at/yawk/columbus/Chunk.java:225-227 | the column index of (x, z) is in 0..255 and holds x mod 16 in its low and z mod 16 in its high nibble |
| Chunks.ColumnIndexInjective | src/main/java/at/yawk/columbus/Chunk.java:225-227 | two coordinate pairs address the same column exactly when they agree modulo 16 |
| Chunks.GetBiome | src/main/java/at/yawk/columbus/Chunk.java:85-87 | the biome id is read at the index with x in the high nibble and z in the low nibble, which is the column index of (z, x) and not of (x, z) |
| Chunks.SetBiome | src/main/java/at/yawk/columbus/Chunk.java:96-98 | the column index of (x, z) holds the new id; every other column and every other field is unchanged |
| Chunks.BiomeTransposed | src/main/java/at/yawk/columbus/Chunk.java:85-98 | what `setBiome(x, z)` wrote is read by `getBiome(z, x)`: the two index the array transposed |
| Chunks.BiomeReadBackFails | src/main/java/at/yawk/columbus/Chunk.java:85-98 | after setting column (1, 0) of an all-zero chunk to 5, `getBiome(1, 0)` still reads 0 |
| Chunks.BiomeGetAfterSet | src/main/java/at/yawk/columbus/Chunk.java:96-98 | with the lookup laid out as the write side lays it out, a write is read back at the same coordinates and nowhere else |
| Chunks.SetHeight | src/main/java/at/yawk/columbus/Chunk.java:122-124 | the column's height map entry reads back the new height; nothing but the height map changes |
| Chunks.HeightGetAfterSet | src/main/java/at/yawk/columbus/Chunk.java:109-124 | reading any column after `setHeight` gives the new height at the written column and the old one elsewhere |
| Chunks.GetChunkSection | src/main/java/at/yawk/columbus/Chunk.java:129-133 | section `i` of a chunk is a well-shaped section at layer `i`; the index must be in range |
| Chunks.SetBlock | src/main/java/at/yawk/columbus/Chunk.java:212-214 | the block is written in section `y >> 4`, which reads back the new id and data; every other section and every other field is unchanged |
| Chunks.SetBlockThenGet | src/main/java/at/yawk/columbus/Chunk.java:212-214 | reading any block after `setBlock` gives the new id at the written block and the old id at every other height or column |
| Chunks.Fullbright | src/main/java/at/yawk/columbus/Chunk.java:219-223 | every section is replaced by its fully sky-lit self; nothing else changes |
| Chunks.ColumnHeightUnique | src/main/java/at/yawk/columbus/Chunk.java:138-152 | a column has exactly one height |
| Chunks.OpaqueInSection | src/main/java/at/yawk/columbus/Chunk.java:142-146 | height `y` of section `sy` is world height `16 * sy + y` |
| Chunks.ScanColumn | src/main/java/at/yawk/columbus/Chunk.java:142-149 | the downward search over sections `top`..0 gives a height between 0 and the top of section `top` |
| Chunks.ScanColumnFinds | src/main/java/at/yawk/columbus/Chunk.java:142-149 | the search stops one above the highest opaque block of the searched sections, or gives 0 when they let all light through |
| Chunks.SectionScan | src/main/java/at/yawk/columbus/Chunk.java:143-146 | what `getHighestBlock` found in a section, stated in world heights: the block found is opaque and every block above it in that section is not |
| Chunks.HeightColumns | src/main/java/at/yawk/columbus/Chunk.java:139-151 | every column of the height map gets the result of searching all sections from the top |
| Chunks.HeightColumn | src/main/java/at/yawk/columbus/Chunk.java:140-151 | column (x, z) of the computed map is the height of that column |
| Chunks.CalculateHeightMap | src/main/java/at/yawk/columbus/Chunk.java:138-152 | every column of the recomputed height map is one above its highest opaque block, or 0; nothing but the height map changes |
| ChunkCodec.NonEmpty | src/main/java/at/yawk/columbus/Chunk.java:169-174 | the written sections are non-empty sections of the chunk, no more of them than it has |
| ChunkCodec.NonEmptyMembers | src/main/java/at/yawk/columbus/Chunk.java:170-174 | exactly the non-empty sections are written: each written one is a section of the chunk, and each non-empty section is written |
| ChunkCodec.Encode | src/main/java/at/yawk/columbus/Chunk.java:172 | each section becomes one compound tag |
| ChunkCodec.BiomesOf | src/main/java/at/yawk/columbus/Chunk.java:164-166 | the biomes are written, unchanged, unless every one of them is -1 |
| ChunkCodec.PutBiomes | src/main/java/at/yawk/columbus/Chunk.java:164-166 | "Biomes" is stored only when the biomes are written; every other key is unchanged |
| ChunkCodec.Header | src/main/java/at/yawk/columbus/Chunk.java:158-163 | the first five fields form a compound without repeated names and without "Biomes" |
| ChunkCodec.AssembleHeader | src/main/java/at/yawk/columbus/Chunk.java:159-163 | "xPos", "zPos", "LastUpdate", "TerrainPopulated" and "InhabitedTime" hold the position, the two longs and the populated byte |
| ChunkCodec.AssembleBiomes | src/main/java/at/yawk/columbus/Chunk.java:164-166 | "Biomes" holds the biome array when it is written and is absent otherwise |
| ChunkCodec.AssembleMiddle | src/main/java/at/yawk/columbus/Chunk.java:167-176 | "HeightMap" holds the height map as an int array and "Sections" the list of section compounds |
| ChunkCodec.AssembleLists | src/main/java/at/yawk/columbus/Chunk.java:177-179 | "Entities", "TileEntities" and "TileTicks" hold the three lists |
| ChunkCodec.Level | src/main/java/at/yawk/columbus/Chunk.java:157-179 | the "Level" compound has no repeated name |
| ChunkCodec.LevelFields | src/main/java/at/yawk/columbus/Chunk.java:157-179 | the "Level" compound holds the position, update time, populated flag (1 or 0), inhabited time, height map, the sections' tags and the three entity lists under their keys, and the biomes exactly when one of them is not -1 |
| ChunkCodec.Wrap | src/main/java/at/yawk/columbus/Chunk.java:180 | the root is unnamed and holds only "Level", from which the compound is read back unchanged |
| ChunkCodec.Serialize | src/main/java/at/yawk/columbus/Chunk.java:157-181 | `serialize` returns an unnamed root whose only key is "Level", and that compound holds every field of the chunk under its key, the biomes only when one of them is not -1 |
| ChunkCodec.ReadLevel | src/main/java/at/yawk/columbus/Chunk.java:184 | reading "Level" succeeds exactly when the root is a compound holding a compound under "Level"; a non-compound root is a type mismatch and a missing "Level" an absent-value error |
| ChunkCodec.ReadLong | src/main/java/at/yawk/columbus/Chunk.java:186-188 | an absent long field keeps the default; a present one must be a long and is taken as is |
| ChunkCodec.ReadPopulated | src/main/java/at/yawk/columbus/Chunk.java:187 | an absent "TerrainPopulated" keeps the default; a present one must be a byte, and any non-zero byte means populated |
| ChunkCodec.ReadBiomes | src/main/java/at/yawk/columbus/Chunk.java:189-194 | absent "Biomes" keeps the default; a present one must be a byte array of at least 256 entries, whose first 256 are copied |
| ChunkCodec.DecodeSection | src/main/java/at/yawk/columbus/Chunk.java:196-197 | a "Sections" element that is not a compound is a type mismatch; a read section is well shaped |
| ChunkCodec.DecodeAll | src/main/java/at/yawk/columbus/Chunk.java:196-197 | every element of "Sections" is read as a section |
| ChunkCodec.Place | src/main/java/at/yawk/columbus/Chunk.java:198 | a section is stored at its own layer, which must lie inside the array; nothing else changes |
| ChunkCodec.PlaceAll | src/main/java/at/yawk/columbus/Chunk.java:196-199 | placing the reads in order keeps the sections stacked and their number; a failing first read fails the load with its error |
| ChunkCodec.PlaceAllStops | src/main/java/at/yawk/columbus/Chunk.java:196-199 | once the reads before it are placed, the first failed read fails the load with its error, whatever follows |
| ChunkCodec.LoadSections | src/main/java/at/yawk/columbus/Chunk.java:195-200 | loading the "Sections" list keeps the sections stacked and their number |
| ChunkCodec.ReadSections | src/main/java/at/yawk/columbus/Chunk.java:195-200 | an absent "Sections" keeps the sections the constructor made |
| ChunkCodec.ReadList | src/main/java/at/yawk/columbus/Chunk.java:201-205 | an absent entity list is empty; a present one must be a list and is taken as is |
| ChunkCodec.ReadBody | src/main/java/at/yawk/columbus/Chunk.java:185-206 | a read chunk is well shaped, has the world's section count and the position stored under "xPos"/"zPos", and a zero height map; a missing "xPos" is an absent-value error |
| ChunkCodec.Deserialize | src/main/java/at/yawk/columbus/Chunk.java:183-207 | a read chunk is well shaped with the world's section count; a root that is not a compound is a type mismatch; the chunk is what reading the body of "Level" gives |
| ChunkCodec.DecodeEncode | src/main/java/at/yawk/columbus/ChunkSection.java:74-108 | every written section whose cells fit their encodings reads back as itself |
| ChunkCodec.PlaceNonEmpty | src/main/java/at/yawk/columbus/Chunk.java:195-199 | placing the reads of the non-empty sections among the first k over new sections restores those sections and leaves new ones elsewhere |
| ChunkCodec.LoadSectionTags | src/main/java/at/yawk/columbus/Chunk.java:168-200 | loading the written "Sections" list restores the non-empty sections and leaves new empty sections at the other layers |
| ChunkCodec.ReadBodyOf | src/main/java/at/yawk/columbus/Chunk.java:183-207 | reading a "Level" compound that holds a chunk's fields gives the chunk as a round trip leaves it |
| ChunkCodec.RoundTrip | src/main/java/at/yawk/columbus/Chunk.java:157-207 | `deserialize(serialize(c))` is `c` except that the height map comes back zero, biomes that are all -1 come back as the default, and empty sections come back new |
| Worlds.NewWorld | src/main/java/at/yawk/columbus/World.java:24-33 | a new world has the given properties and no chunks |
| Worlds.ChunkKey | src/main/java/at/yawk/columbus/World.java:66-68 | the key holds the 32-bit pattern of x in its low half and that of z in its high half |
| Worlds.KeyCoords | src/main/java/at/yawk/columbus/World.java:66-68 | both coordinates can be read back from the key |
| Worlds.ChunkKeyInjective | src/main/java/at/yawk/columbus/World.java:66-68 | two coordinate pairs share a key exactly when they are equal |
| Worlds.RegionIndex | src/main/java/at/yawk/columbus/World.java:70-72 | the slot of a chunk in its region file is in 0..1023, holding x mod 32 in its low five bits and z mod 32 above them |
| Worlds.ScanOrder | src/main/java/at/yawk/columbus/World.java:81-95 | within a region, slot order is exactly the writer's scan order, z outer and x inner, and distinct in-region coordinates get distinct slots |
| Worlds.GetChunkIfExists | src/main/java/at/yawk/columbus/World.java:57-64 | nothing exactly when no chunk is stored under the key of (x, z); otherwise the chunk stored under that key, which in a consistent world is the chunk at (x, z); the map is not changed |
| Worlds.GetChunkOrCreate | src/main/java/at/yawk/columbus/World.java:40-50 | a stored chunk is returned and nothing changes; otherwise a new empty chunk at (x, z) with the world's section count is stored under the key and returned, failing only when the chunk constructor fails; the index stays consistent |
| Worlds.GetChunkOrCreateIdempotent | src/main/java/at/yawk/columbus/World.java:40-50 | asking again returns the same chunk and changes nothing |
| Worlds.GetAfterCreate | src/main/java/at/yawk/columbus/World.java:40-64 | after `getChunkOrCreate(x, z)` the chunk is found at (x, z) and every other position sees what it saw before |
| Worlds.RefreshHeightMap | src/main/java/at/yawk/columbus/World.java:163-167 | every chunk's height map is recomputed as the column heights under the lighter; nothing else changes |
| Worlds.Fullbright | src/main/java/at/yawk/columbus/World.java:172-176 | every sky-light cell of every chunk becomes 15; nothing else changes |
| Worlds.PassesKeepConsistency | src/main/java/at/yawk/columbus/World.java:163-176 | both whole-world passes keep every chunk at the key of its coordinates with the world's section count |
| Regions.SectorCount | src/main/java/at/yawk/columbus/World.java:93 | `(length + 5 >> 12) + 1` is the least count of 4096-byte sectors holding the 5-byte frame header, the payload and at least one padding byte; a frame that fills its sectors exactly gets one more |
| Regions.SectorCountExamples | src/main/java/at/yawk/columbus/World.java:93 | a 4090-byte payload takes one sector, a 4091- or 4092-byte payload takes two |
| Regions.Count | src/main/java/at/yawk/columbus/World.java:83-93 | an empty slot takes no sectors and a present one at least one |
| Regions.Used | src/main/java/at/yawk/columbus/World.java:80-96 | the sectors of all payloads are at most the per-payload maximum times the slot count |
| Regions.UsedAppend | src/main/java/at/yawk/columbus/World.java:94 | the sectors of two runs of slots add up |
| Regions.SectorOfNext | src/main/java/at/yawk/columbus/World.java:92-94 | the counter `usedSectors` moves on by exactly the sectors of each present slot |
| Regions.SectorOfMonotone | src/main/java/at/yawk/columbus/World.java:80-96 | the sector counter never decreases along the scan, and passes each present slot's sectors |
| Regions.SectorsDisjoint | src/main/java/at/yawk/columbus/World.java:80-96 | two present slots get disjoint sector ranges, both after the two header sectors |
| Regions.SectorBound | src/main/java/at/yawk/columbus/World.java:92-94 | every sector number stays within the int the writer keeps it in |
| Regions.LocationWord | src/main/java/at/yawk/columbus/World.java:103 | the location word (the sector number shifted left by 8, or-ed with the sector count, in Java's 32-bit arithmetic) is never 0 for a present slot |
| Regions.LocationWordFields | src/main/java/at/yawk/columbus/World.java:103-129 | within the format's limits the word is `sector * 256 + count`, and the reader's `id >> 8` and `id & 0xff` take it apart again |
| Regions.Word | src/main/java/at/yawk/columbus/World.java:98-104 | a slot's word is 0 exactly when the slot is empty |
| Regions.Words | src/main/java/at/yawk/columbus/World.java:98-104 | the location table has 1024 words |
| Regions.Stamp | src/main/java/at/yawk/columbus/World.java:106 | the timestamp is the last-update time in seconds, truncated toward zero, and 0 for an empty slot |
| Regions.Stamps | src/main/java/at/yawk/columbus/World.java:105-107 | one timestamp per slot |
| Regions.Frame | src/main/java/at/yawk/columbus/World.java:112-115 | a frame is the payload length plus one, the marker 2, the data and zero padding, exactly filling the payload's sectors |
| Regions.Frames | src/main/java/at/yawk/columbus/World.java:108-116 | the frames of the present slots, in slot order, fill exactly their sectors |
| Regions.Layout | src/main/java/at/yawk/columbus/World.java:77-117 | the written file is the two header sectors plus every payload's sectors, a whole number of sectors |
| Regions.Skip | src/main/java/at/yawk/columbus/World.java:136 | `skipBytes(n)` skips `n` bytes, fewer at the end of the input, none for a negative count |
| Regions.ReadLocations | src/main/java/at/yawk/columbus/World.java:124-133 | reading the location table fails exactly when fewer than 4096 bytes remain; otherwise it gives 1024 words and the bytes after them |
| Regions.EntriesOf | src/main/java/at/yawk/columbus/World.java:124-133 | each entry comes from a non-zero word, with sector `id >> 8` and count `id & 0xff` |
| Regions.SkipStamps | src/main/java/at/yawk/columbus/World.java:134-140 | the timestamp table takes four bytes per slot whatever it holds |
| Regions.Insert | src/main/java/at/yawk/columbus/World.java:141-144 | inserting an entry adds exactly that entry, before the first entry whose sector is not smaller |
| Regions.InsertSorted | src/main/java/at/yawk/columbus/World.java:141-144 | inserting into a run sorted by sector keeps it sorted |
| Regions.SortBySector | src/main/java/at/yawk/columbus/World.java:141-144 | the sort is a permutation of the entries ordered by sector, and leaves an already sorted run unchanged |
| Regions.SortStep | src/main/java/at/yawk/columbus/World.java:141-144 | one step of the sort: the head inserted into the sorted tail yields a sorted permutation of the run, which is the run itself when it was sorted already |
| Regions.ReadFrame | src/main/java/at/yawk/columbus/World.java:149-152 | a frame read consumes its 5-byte header and data; fewer than 4 bytes is an end-of-input error |
| Regions.Store | src/main/java/at/yawk/columbus/World.java:155 | storing a chunk changes only the chunk under that key |
| Regions.NextChunk | src/main/java/at/yawk/columbus/World.java:146-157 | one turn of the chunk loop consumes input |
| Regions.ReadChunks | src/main/java/at/yawk/columbus/World.java:146-157 | the chunk loop never changes the world's properties |
| Regions.ReadRegionWith | src/main/java/at/yawk/columbus/World.java:122-158 | reading never changes the world's properties, and a file shorter than the location table is an end-of-input error with the world unchanged |
| Regions.ReadChunksKeys | src/main/java/at/yawk/columbus/World.java:146-157 | the chunk loop keeps every stored chunk key and only adds keys of its entries' slots |
| Regions.Visits | src/main/java/at/yawk/columbus/World.java:141-146 | the reader visits entries of slots 0..1023 |
| Regions.ReadRegionChunks | src/main/java/at/yawk/columbus/World.java:122-146 | past the two tables, reading is the chunk loop over the entries sorted by sector, starting at sector 2 |
| Regions.ReadRegionKeys | src/main/java/at/yawk/columbus/World.java:122-158 | reading a region file keeps every chunk key the world had and adds keys only for the 1024 slots |
| Regions.ReadChunksOther | src/main/java/at/yawk/columbus/World.java:146-157 | the chunk loop leaves a key none of its entries' slots maps to as it was |
| Regions.ReadRegionOther | src/main/java/at/yawk/columbus/World.java:122-158 | reading a region file leaves every key that is not one of its slots' keys as it was |
| Regions.ReadRegionKeeps | src/main/java/at/yawk/columbus/World.java:122-158 | after reading a region file, every chunk the world held under a key that no slot maps to is still there, unchanged |
| RegionRoundTrip.WordsEntries | src/main/java/at/yawk/columbus/World.java:98-133 | the reader decodes the writer's location words into exactly the entries of the present slots, with the sectors the writer allocated |
| RegionRoundTrip.ExpectedSorted | src/main/java/at/yawk/columbus/World.java:80-96 | the writer allocates sectors in slot order, so the entries are already sorted by sector |
| RegionRoundTrip.FrameRoundTrip | src/main/java/at/yawk/columbus/World.java:112-115 | a written frame reads back as its data, leaving exactly what follows it |
| RegionRoundTrip.NextChunkStep | src/main/java/at/yawk/columbus/World.java:146-156 | on the writer's frames each entry sits at the current sector, so nothing is skipped and the next frame follows |
| RegionRoundTrip.ReadFramesFrom | src/main/java/at/yawk/columbus/World.java:146-157 | the chunk loop over the writer's frames stores every present slot's chunk, in slot order, without failure |
| RegionRoundTrip.ReadLocationsOf | src/main/java/at/yawk/columbus/World.java:103-125 | 1024 words written as ints read back as themselves, leaving what follows |
| RegionRoundTrip.LocationsRoundTrip | src/main/java/at/yawk/columbus/World.java:98-133 | the location table of a written file reads back as the writer's words |
| RegionRoundTrip.StampsSkipped | src/main/java/at/yawk/columbus/World.java:105-140 | the timestamp table is passed over as a whole |
| RegionRoundTrip.LayoutRoundTrip | src/main/java/at/yawk/columbus/World.java:77-158 | within the format's limits, reading what was written stores every present slot's decoded chunk under that slot's key, in slot order, and reports no failure |
| RegionRoundTrip.RestoreLookup | src/main/java/at/yawk/columbus/World.java:155 | with distinct slot keys, a present slot's key holds its chunk and an empty slot's key is left as it was |
| RegionRoundTrip.RestoreKeep | src/main/java/at/yawk/columbus/World.java:155 | a key no slot maps to is left as it was |
| RegionRoundTrip.LayoutLookup | src/main/java/at/yawk/columbus/World.java:77-158 | write then read, slot by slot: with distinct slot keys a present slot's key holds its decoded chunk and an empty slot's key is left as the world had it |
| RegionFiles.Mul32Wrap | src/main/java/at/yawk/columbus/World.java:83 | `x * 32` wrapped at 32 bits keeps the low 27 bits of x shifted left by five, so its low five bits are clear |
| RegionFiles.RegionCoordSum | src/main/java/at/yawk/columbus/World.java:83 | or-ing the offset into the wrapped product `x * 32` adds it, and the offset is the coordinate's low five bits |
| RegionFiles.RegionCoordExact | src/main/java/at/yawk/columbus/World.java:83 | for every region of int block coordinates the slot's chunk coordinate is exactly `32x + o`, so its region is the coordinate divided by 32 |
| RegionFiles.ChunkInRegion | src/main/java/at/yawk/columbus/World.java:75-83 | every chunk coordinate lies in region `c >> 5` at offset `c & 31` |
| RegionFiles.RegionCoordInjective | src/main/java/at/yawk/columbus/World.java:81-83 | distinct offsets of one region are distinct chunk coordinates |
| RegionFiles.RegionChunk | src/main/java/at/yawk/columbus/World.java:83-86 | slot `i` of region (x, z) is empty exactly when no chunk is stored at offset (`i & 31`, `i >> 5`) of the region |
| RegionFiles.FitsEach | src/main/java/at/yawk/columbus/World.java:87-94 | every payload of a region that fits the writer's arithmetic is within the payload limit |
| RegionFiles.SlotsWith | src/main/java/at/yawk/columbus/World.java:81-96 | the writer's 1024 slots hold, in slot order, the payload and last-update time of the region's chunk at that slot |
| RegionFiles.Slots | src/main/java/at/yawk/columbus/World.java:81-96 | a slot is present exactly when the region has a chunk there, and carries that chunk's last-update time |
| RegionFiles.WriteRegion | src/main/java/at/yawk/columbus/World.java:77-117 | the written file is a whole number of sectors, at least the two header sectors |
| RegionFiles.EmptyRegion | src/main/java/at/yawk/columbus/World.java:77-117 | a region without chunks is written as its two header sectors only |
| RegionFiles.LoadChunk | src/main/java/at/yawk/columbus/World.java:153-154 | a decoded chunk is well formed with the world's section count; data that does not inflate is corrupt |
| RegionFiles.LoadPayload | src/main/java/at/yawk/columbus/World.java:87-91 | a chunk packed by the writer loads back as its normalised form |
| RegionFiles.ReadRegion | src/main/java/at/yawk/columbus/World.java:122-158 | the reader as written keeps the world's properties and every key it had, adds only keys of local slot coordinates (`i & 31`, `i >> 5`), and leaves the chunk under every other key unchanged |
| RegionFiles.ReadRegionAt | src/main/java/at/yawk/columbus/World.java:122-158 | the corrected reader keeps the world's properties and every key it had, adds only the keys of the region's own chunk coordinates, and leaves the chunk under every other key unchanged |
| RegionFiles.RegionKeysDistinct | src/main/java/at/yawk/columbus/World.java:66-72 | distinct slots of a region have distinct chunk keys |
| RegionFiles.LocalKeysDistinct | src/main/java/at/yawk/columbus/World.java:128-131 | distinct slots have distinct local keys |
| RegionFiles.ReadAfterWriteWith | src/main/java/at/yawk/columbus/World.java:77-158 | write then read with any payload maker, decoder and distinct slot keys: each chunk of the region is stored under its slot's key as its payload decodes, and an empty slot's key is left as it was |
| RegionFiles.RegionLoads | src/main/java/at/yawk/columbus/World.java:87-154 | every chunk of a consistent world's region loads back as its normalised form |
| RegionFiles.SlotLoads | src/main/java/at/yawk/columbus/World.java:87-154 | the chunk of one slot loads back as its normalised form |
| RegionFiles.ReadAfterWrite | src/main/java/at/yawk/columbus/World.java:77-158 | writing region (x, z) and reading the file back, with chunks stored under their own coordinates, fails nowhere and leaves at each of the region's coordinates the normalised chunk written, or what the target world had there |
| RegionFiles.ReadRegionAtKeeps | src/main/java/at/yawk/columbus/World.java:122-158 | reading region (x, z), whatever the file holds, leaves every chunk outside the region as it was |
| RegionFiles.OwnKeyNotLocal | src/main/java/at/yawk/columbus/World.java:128-131 | outside region (0, 0) no chunk's own key is a local key |
| RegionFiles.ReadRegionMisplaces | src/main/java/at/yawk/columbus/World.java:128-155 | the reader as written stores every chunk of any region but (0, 0) at its offset within the region, and nothing at the chunk's own coordinates |
| RegionFiles.ReadRegionMisplacesExample | src/main/java/at/yawk/columbus/World.java:128-155 | a chunk at (32, 0), in region (1, 0), is read back at (0, 0) and not at (32, 0) |
| Entities.PosItems | src/main/java/at/yawk/columbus/Entities.java:17-18 | the "Pos" list is read when "Pos" holds a list; a missing "Pos" is an absent-value error and another tag fails the cast |
| Entities.GetEntityCoord | src/main/java/at/yawk/columbus/Entities.java:17-33 | coordinate `i` is read exactly when "Pos" is a list whose element `i` is a double; an index past the list's end is an index error |
| Entities.SetEntityCoord | src/main/java/at/yawk/columbus/Entities.java:38-40 | setting element `i` of "Pos" succeeds exactly when reading it does, and fails with the same error otherwise |
| Entities.SetEntityCoordGet | src/main/java/at/yawk/columbus/Entities.java:17-40 | after setting coordinate `i` it reads back the new value; the other coordinates, the length of "Pos" and every other key are as before |
| Entities.SetEntityYAsWrittenMisses | src/main/java/at/yawk/columbus/Entities.java:45-47 | as written, `setEntityY` leaves Y as it was and overwrites X instead |
| Entities.SetEntityZAsWrittenMisses | src/main/java/at/yawk/columbus/Entities.java:52-54 | as written, `setEntityZ` leaves Z as it was and overwrites X instead |
| Entities.SetEntityYAsWrittenExample | src/main/java/at/yawk/columbus/Entities.java:45-47 | an entity at (1.0, 2.0, 3.0) moved to y = 5.0 by the setter as written ends up at (5.0, 2.0, 3.0) |
| Entities.EntitySettersGet | src/main/java/at/yawk/columbus/Entities.java:14-54 | with Y and Z setters writing elements 1 and 2, each setter is read back by its getter and leaves the other two coordinates alone |
| Entities.GetTileCoord | src/main/java/at/yawk/columbus/Entities.java:59-75 | a tile-entity coordinate is read when its key holds an int; a missing key is an absent-value error, another tag a type mismatch |
| Entities.SetTileCoord | src/main/java/at/yawk/columbus/Entities.java:80-96 | setting a coordinate succeeds exactly when reading it does, and fails with the same error otherwise |
| Entities.SetTileCoordGet | src/main/java/at/yawk/columbus/Entities.java:59-96 | after setting a coordinate it reads back the new value; every other key, and the set of keys, is as before |
| Entities.TileSettersGet | src/main/java/at/yawk/columbus/Entities.java:59-96 | each tile-entity setter is read back by its getter and leaves the other two coordinates alone |
| Schematics.LoadKeys | src/main/java/at/yawk/columbus/Schematic.java:54-64 | `load` reads seven keys |
| Schematics.Load | src/main/java/at/yawk/columbus/Schematic.java:54-64 | loading succeeds exactly when the three dimensions are shorts, "Blocks" and "Data" byte arrays and the entity keys lists, and then every field is the tag under its key; a missing key is an absent-value error naming one of the seven keys, any other failure a type mismatch |
| Schematics.KeysDistinct | src/main/java/at/yawk/columbus/Schematic.java:55-63 | the seven keys are distinct |
| Schematics.Document | src/main/java/at/yawk/columbus/Schematic.java:54-64 | the stored document holds every field under the key `load` reads it from |
| Schematics.LoadDocument | src/main/java/at/yawk/columbus/Schematic.java:54-64 | every schematic is loaded back from its document |
| Schematics.ProductIsMul | src/main/java/at/yawk/columbus/Schematic.java:109 | the index's product, written as repeated addition, is the ordinary product |
| Schematics.WrapAdd | src/main/java/at/yawk/columbus/Schematic.java:109 | wrapping an operand of a 32-bit sum changes nothing once the sum wraps |
| Schematics.WrapMul | src/main/java/at/yawk/columbus/Schematic.java:109 | wrapping a factor of a 32-bit product changes nothing once the product wraps |
| Schematics.IndexWrapsOnce | src/main/java/at/yawk/columbus/Schematic.java:108-110 | `x + (z + y * length) * width` evaluated with every step wrapping at 32 bits is the exact value wrapped once |
| Schematics.MixedRadix | src/main/java/at/yawk/columbus/Schematic.java:108-110 | `a + m * n` with `0 <= a < n` determines both `a` and `m` |
| Schematics.CellBound | src/main/java/at/yawk/columbus/Schematic.java:108-110 | inside the cuboid the exact index lies in 0 .. width * height * length - 1 |
| Schematics.CellInjective | src/main/java/at/yawk/columbus/Schematic.java:108-110 | inside the cuboid distinct coordinates have distinct exact indices |
| Schematics.IndexInBox | src/main/java/at/yawk/columbus/Schematic.java:108-110 | when the cuboid has fewer cells than 2^31, no step of `getIndex` wraps inside it |
| Schematics.BlockAt | src/main/java/at/yawk/columbus/Schematic.java:83-92 | the byte at an array index, or an index error exactly when the index is outside the array |
| Schematics.StoreAt | src/main/java/at/yawk/columbus/Schematic.java:97-106 | a store succeeds exactly when the index is inside the array; only the block arrays change |
| Schematics.StoreThenRead | src/main/java/at/yawk/columbus/Schematic.java:83-106 | reading after a store gives the stored byte at the same layer and index and the old value everywhere else |
| Schematics.GetBlock | src/main/java/at/yawk/columbus/Schematic.java:83-92 | a read succeeds exactly when the index of (x, y, z) lies inside the chosen array, giving the byte there; otherwise an index error carrying that index |
| Schematics.SetBlock | src/main/java/at/yawk/columbus/Schematic.java:97-106 | `setBlockId` and `setBlockData` succeed exactly when the read at the same coordinates does; the dimensions and entity lists are unchanged |
| Schematics.GetBlockId | src/main/java/at/yawk/columbus/Schematic.java:83-85 | the id at (x, y, z) is the id array's byte at the index of (x, y, z); an index outside the array is an index error |
| Schematics.GetBlockData | src/main/java/at/yawk/columbus/Schematic.java:90-92 | the data at (x, y, z) is the data array's byte at the index of (x, y, z); an index outside the array is an index error |
| Schematics.SetBlockId | src/main/java/at/yawk/columbus/Schematic.java:97-99 | succeeds exactly when the index is inside the id array; the id then reads back, every other id cell and the whole data array are unchanged |
| Schematics.SetBlockData | src/main/java/at/yawk/columbus/Schematic.java:104-106 | succeeds exactly when the index is inside the data array; the data then reads back, every other data cell and the whole id array are unchanged |
| Schematics.GetAfterSet | src/main/java/at/yawk/columbus/Schematic.java:83-110 | reading after a set gives the stored byte where the layer and index agree and the old value everywhere else |
| Schematics.GetAfterSetInBox | src/main/java/at/yawk/columbus/Schematic.java:83-110 | inside a cuboid of fewer than 2^31 cells a set is read back at the same coordinates and at no others |
| Schematics.InBoxReadable | src/main/java/at/yawk/columbus/Schematic.java:83-110 | a schematic whose arrays hold one byte per cell reads every cell of its cuboid |
| Copier.Column | src/main/java/at/yawk/columbus/SchematicCopier.java:21-22 | the inner loop visits exactly the cells of the column with z from its start below the length |
| Copier.Rows | src/main/java/at/yawk/columbus/SchematicCopier.java:19-21 | the middle loop visits exactly the cells with y from its start below the height, every z below the length |
| Copier.Slabs | src/main/java/at/yawk/columbus/SchematicCopier.java:17-21 | the outer loop visits exactly the cells with x from its start below the width |
| Copier.BoxCells | src/main/java/at/yawk/columbus/SchematicCopier.java:17-28 | the three loops visit exactly the cells of the cuboid |
| Copier.WrapInjective | src/main/java/at/yawk/columbus/SchematicCopier.java:18-22 | adding the same start to two coordinates with 32-bit wrapping keeps them apart |
| Copier.TargetInjective | src/main/java/at/yawk/columbus/SchematicCopier.java:17-22 | distinct cells of the cuboid land on distinct world positions |
| Copier.Source | src/main/java/at/yawk/columbus/SchematicCopier.java:23-24 | the copied id is the schematic's byte masked to 0..255 and the data is the schematic's data, read where both reads succeed |
| Copier.CopyBlock | src/main/java/at/yawk/columbus/SchematicCopier.java:23-25 | one pass reads its cell and places it at its target; the world only gains chunks or block sections |
| Copier.Place | src/main/java/at/yawk/columbus/SchematicCopier.java:25 | placing a block only adds a chunk or changes block sections |
| Copier.PlaceWrites | src/main/java/at/yawk/columbus/SchematicCopier.java:25 | a placement writes its target position |
| Copier.PlaceFrame | src/main/java/at/yawk/columbus/SchematicCopier.java:25 | a placement changes no other position of a chunk that already existed |
| Copier.CopyBlockWrites | src/main/java/at/yawk/columbus/SchematicCopier.java:23-25 | one pass writes its cell's block at the cell's target |
| Copier.CopyBlockFrame | src/main/java/at/yawk/columbus/SchematicCopier.java:23-25 | one pass changes no other position of a chunk that already existed |
| Copier.SameChunk | src/main/java/at/yawk/columbus/Chunk.java:212-214 | within one chunk, setting a block leaves every other position as it was |
| Copier.CopyBlocks | src/main/java/at/yawk/columbus/SchematicCopier.java:17-28 | the block loops only add chunks or change block sections |
| Copier.CopyBlocksFrame | src/main/java/at/yawk/columbus/SchematicCopier.java:17-28 | positions no cell targets keep their block, if their chunk existed |
| Copier.LastVisitStays | src/main/java/at/yawk/columbus/SchematicCopier.java:17-28 | a cell the rest of the loops do not visit again keeps the block its pass wrote |
| Copier.CopyBlocksWrites | src/main/java/at/yawk/columbus/SchematicCopier.java:17-28 | every visited cell of the cuboid ends up at its target |
| Copier.Relocate | src/main/java/at/yawk/columbus/SchematicCopier.java:34-36 | the three setters on a tile entity with int coordinates: each coordinate reads back as set and no other key changes |
| Copier.Shift | src/main/java/at/yawk/columbus/SchematicCopier.java:29-33 | a tile entity can be moved exactly when it is a compound with int "x", "y", "z", and its target is each coordinate plus the start, wrapping at 32 bits |
| Copier.ShiftedCopy | src/main/java/at/yawk/columbus/SchematicCopier.java:30-36 | the appended copy holds the shifted coordinates and every other key of the original |
| Copier.Append | src/main/java/at/yawk/columbus/SchematicCopier.java:37 | appending adds the copy at the end of one chunk's tile entities; nothing else changes |
| Copier.CopyTileEntities | src/main/java/at/yawk/columbus/SchematicCopier.java:29-38 | the tile-entity loop changes only tile-entity lists of existing chunks |
| Copier.TilesSucceed | src/main/java/at/yawk/columbus/SchematicCopier.java:29-38 | the tile-entity loop succeeds exactly when every tile entity can be moved and lands in an existing chunk |
| Copier.TilesFailNull | src/main/java/at/yawk/columbus/SchematicCopier.java:37 | when every tile entity can be moved, the loop's only failure is the null chunk |
| Copier.TilesLand | src/main/java/at/yawk/columbus/SchematicCopier.java:29-38 | after the loop each chunk holds its former tile entities followed, in order, by the moved copies that land in it |
| Copier.Copy | src/main/java/at/yawk/columbus/SchematicCopier.java:15-39 | a copy fails its assertion when the 32-bit sum `height + startY` is not below the world's height; a successful copy keeps the properties and every chunk key, and every chunk stays well formed |
| Copier.CopyThenTiles | src/main/java/at/yawk/columbus/SchematicCopier.java:16-38 | past the assertion, a copy is the block loops followed by the tile-entity loop |
| Copier.TilesKeepBlocks | src/main/java/at/yawk/columbus/SchematicCopier.java:29-38 | the tile-entity loop touches no block |
| Copier.CopyWritesBox | src/main/java/at/yawk/columbus/SchematicCopier.java:17-28 | after a copy every cell of the cuboid is at its translated position, with the id masked to 0..255 and the data as stored |
| Copier.CopyKeepsOutside | src/main/java/at/yawk/columbus/SchematicCopier.java:15-39 | a copy changes no block outside the translated cuboid in a chunk that existed before |
| Copier.CopyTileEntitiesLand | src/main/java/at/yawk/columbus/SchematicCopier.java:12-39 | after a copy every chunk holds its former tile entities followed by the moved copies that land in it; plain entities are not copied, and a chunk the copy created starts with none |
| Copier.CopyNullChunk | src/main/java/at/yawk/columbus/SchematicCopier.java:37 | a tile entity whose chunk neither existed nor received a block makes the copy fail with a null dereference |
| Levels.Flag | src/main/java/at/yawk/columbus/Level.java:122 | `(byte) (b ? 1 : 0)` is 1 exactly when the flag is set and 0 otherwise |
| Levels.SetRule | src/main/java/at/yawk/columbus/Level.java:163-165 | the rule now has the new value, replacing any earlier one; every other rule and every other field is unchanged |
| Levels.SetRuleFlag | src/main/java/at/yawk/columbus/Level.java:170-172 | a boolean rule is stored as the text "true" or "false" |
| Levels.AddRules | src/main/java/at/yawk/columbus/Level.java:146-148 | each rule named by the iteration order is found as a string tag holding its value; every other name is as before |
| Levels.KeysDistinct | src/main/java/at/yawk/columbus/Level.java:121-145 | no key of "Data" is added twice |
| Levels.DataInOrder | src/main/java/at/yawk/columbus/Level.java:120-145 | "Data" holds exactly the 23 added entries in the order they are added: no `addTag` replaces another |
| Levels.FieldsUnique | src/main/java/at/yawk/columbus/Level.java:121-145 | the entries of "Data" have distinct names |
| Levels.DataLookup | src/main/java/at/yawk/columbus/Level.java:121-145 | each key of "Data" reads back the value added under it |
| Levels.IdentityFlags | src/main/java/at/yawk/columbus/Level.java:121-128 | the format version is 19133, and "initialized" and "MapFeatures" are stored as 1 when set and 0 when not |
| Levels.NamesStored | src/main/java/at/yawk/columbus/Level.java:123-124 | the level name and generator name are stored as strings |
| Levels.ClockStored | src/main/java/at/yawk/columbus/Level.java:133-134 | the game mode is stored as an int and the time as a long |
| Levels.TimersStored | src/main/java/at/yawk/columbus/Level.java:140-142 | the rain and thunder timers are stored as ints |
| Levels.ModeFlags | src/main/java/at/yawk/columbus/Level.java:131-132 | the cheat and hardcore flags are stored as 1 when set and 0 when not |
| Levels.WeatherFlags | src/main/java/at/yawk/columbus/Level.java:139-141 | the rain and thunder flags are stored as 1 when set and 0 when not |
| Levels.RulesStored | src/main/java/at/yawk/columbus/Level.java:144-145 | "Data" holds the rule compound under "GameRules" |
| Levels.RulesLookup | src/main/java/at/yawk/columbus/Level.java:144-148 | "GameRules" has exactly the rules' names as keys, each holding its value as a string, whatever the iteration order |
| Levels.Serialize | src/main/java/at/yawk/columbus/Level.java:119-151 | the written root is unnamed and holds only "Data", and "Data" holds exactly the 23 fields in the order they are added, none replacing another |
| Levels.DocumentFields | src/main/java/at/yawk/columbus/Level.java:119-151 | the root is unnamed and holds "Data", in which every field is found under its key |
| Levels.RuleRead | src/main/java/at/yawk/columbus/Level.java:144-150 | a rule is found under "Data", "GameRules" and its name, holding its value; a name that is not a rule is absent |
| Levels.SetRuleRead | src/main/java/at/yawk/columbus/Level.java:119-165 | after `setRule(name, value)` the written document holds `value` for that rule and the same as before for every other name |
| Levels.SetRuleFlagRead | src/main/java/at/yawk/columbus/Level.java:119-172 | after `setRule(name, boolean)` the written document holds "true" or "false" for that rule |
| Levels.DefaultRules | src/main/java/at/yawk/columbus/Level.java:30 | a new level has no rules and is written with an empty "GameRules" |
| Levels.DefaultStored | src/main/java/at/yawk/columbus/Level.java:34-114 | a new level is written initialized, named "Columbus", generated "flat", in game mode 1 at time 6000, with both weather timers at `Integer.MAX_VALUE` |

## Left out

- Compression (zlib in region payloads, gzip in the NBT stream wrappers): modelled only as the `RegionFiles.Codec` parameter; the gzip wrappers and `deserializeStream` style stream helpers are not modelled because they only wrap the byte codec in I/O streams.
- Modified UTF-8 transcoding by `writeUTF`/`readUTF`: names and strings are kept as their encoded bytes, so the codec only frames them with the 2-byte length and requires that length to be below 65536.
- Floating point: `TagFloat`, `TagDouble` and entity `Pos` values are raw IEEE 754 bit patterns; no arithmetic, no NaN canonicalisation.
- Biome ids are returned raw: the mapping `Biome.forId` and the rest of `Biome.java` are not modelled, being a data table.
- `Tables.java`: `Lighters.DefaultLight` carries the whole default light table, and `Lighters.PutDefaultBlockLightData` states that every listed id gets its row and every other id keeps its old data; the table's rows themselves are data, checked individually only for stone, water and lava (`Lighters.DefaultOpacities`) and air (`Lighters.DefaultAir`).
- `Lighter.lightUpdateBlockList` is not modelled: no code in the core reads it.
- File and directory I/O: `LevelFolder.java` (directory layout, parallel streams, its first-error cell) and `Util.removeRecursive` are not modelled; the region reader and writer work on byte sequences.
- Concurrency: the `synchronized` methods on World, TagCompound and TagList and the reader's unsynchronised `chunks.put` are modelled single-threaded.
- Java `assert`s run enabled. Those on data being decoded or copied are `Err(AssertionFailed)` results: list integrity in `setTags` (`Lists.SetTags`), `merge` while decoding a section (`Sections.Deserialize`), and the copier's height check and `getChunkSection` range check (`Copier.Copy`, `Copier.Place`). `forId`'s range asserts (`TagType.java` lines 89-90) on a type id read from the stream become the format error `UnknownTagType` (`Nbt.TypeFromId`, `Nbt.Deserialize`). The rest are preconditions, listed below with the member that carries each: `half` on even lengths (`Util.Half`), `merge` on equal lengths (`Util.Merge`), the public `WorldProperties` constructor's height (`WorldProps.Make`), and the two that follow.
- Nbt.Serialize: the writer requires `Nbt.EntryWellFormed`, which takes in the assert of `TagList.serialize` (`TagList.java` line 84). A caller reaches that assert by building a mixed list with the public unchecked `addTag` (`Lists.AddTagUnchecked`). The same predicate demands an int array whose `length << 2` fits an int (`TagArrayInt.java` line 27 overflows otherwise), names and strings below 65536 bytes (`writeUTF` throws otherwise) and no repeated names. `ChunkCodec.Serialize` carries the list part as `ChunkCodec.ListsIntact`, and `RegionFiles.WriteRegion` carries all of it as `RegionFiles.Writable`. What Java does on such input (an `AssertionError`, an exception or a wrong length) is not modelled.
- Chunks.GetChunkSection and Chunks.SetBlock: the range asserts of `getChunkSection` (`Chunk.java` lines 129-130) are preconditions, although public callers reach them, through `getChunkSection` itself and through `setBlock` with any `y` (`Chunk.java` lines 212-213). The `AssertionError` is modelled only where the copier reaches it (`Copier.Place`).
- Object identity: values replace references, so `clone` is the identity on values (`Tags.CloneEqual`), read-only and checked views of lists are the lists themselves, and aliasing (a list changed through another reference after it was added) cannot arise.
- Copier.Copy: `SchematicCopier.copy` mutates the target world in place, so when it fails after the height check (a null chunk for a tile entity, a tile entity without integer coordinates, a block index the schematic lacks, a section index out of range) the Java world keeps the chunks it created, the blocks it wrote and the tile entities it appended before the failure; the model returns only the error and does not describe that partial world.
- Tags.GetDouble: the accessors `getByte` to `getString` are strict casts, as `Tag.java` declares them, so `GetDouble(TagByte(1))` is a type mismatch (`Tags.ByteAccess`), while `TagTest.java` line 22 expects 1.0 from it, which contradicts the cast at `Tag.java` lines 67-69.
- Tags.GetNumber: `getNumber`, `getLong` and `asCompound` are called on `Tag` but not declared in `Tag.java`, although `TagShort`, `TagFloat` and `TagDouble` override `getNumber`; the model gives `getNumber` to all six numeric tags, as `TagTest.java` lines 15 and 21 use it, `getLong` as a strict cast like the others, and `asCompound` as the compound cast.
- Compound entry order: `TagCompound` keeps its entries in a `HashMap`, so Java writes them in hash order, while the model writes them in sequence order. The byte layout of every written compound with more than one entry therefore follows the model's order, and so does "in the order they are added" in `Levels.DataInOrder`. Reading does not depend on the order (`NbtRoundTrip.DecodeAnyOrder`), so every round trip and lookup holds whatever order Java uses.
- Tags.NewInstance: Java's no-argument constructors leave the string and array values null; the model uses the empty string and empty arrays. The decoder always overwrites them before they are read: `NBT.java` lines 30-31 and `TagList.java` line 101 call `deserialize` right after `newInstance`.
- Regions.SortBySector: Java's `Collections.sort` is stable; the model's insertion sort is too (an entry goes in front of the first one with a larger sector), but no contract states stability, only sortedness, permutation and that sorted input is returned unchanged.
- Sections.GetBlockId, Sections.GetBlockData, Sections.GetLightSky, Sections.GetLightBlock, Chunks.GetHeight and Chunks.BlockIdAt are plain reads with no contract of their own: they are specified through their setters' read-after-write lemmas (`Sections.SetBlockThenGet`, `Sections.SetLightThenGet`, `Chunks.HeightGetAfterSet`, `Chunks.SetBlockThenGet`) and, for the height, through `Chunks.CalculateHeightMap`.
- `Schematic.load` assigns fields one by one and can leave a half-loaded object behind when a later key fails; the model returns either the whole schematic or the error.
- `Level.serialize` adds the empty `GameRules` compound to `Data` and fills it afterwards; the model adds it already filled, which yields the same document.
- The chunk's entity and tile-entity lists are kept as plain tag sequences; `getTagsChecked`'s run-time class check is not modelled.
- `Chunk.deserialize` never reads `HeightMap`, so the round trip (`ChunkCodec.RoundTrip`) is stated against `ChunkCodec.Normalize`: height map zero, biomes that were all -1 read back as 0, and empty sections back to their fresh state.
- Regions.Stamp: the timestamp's relation to `lastUpdated` is stated only for non-negative times whose seconds fit an int; outside that range the value is the Java narrowing, which the function computes but no contract describes.
- Location word limits: the writer packs a slot's location as `sector << 8 | count` in one int (World.java line 103). `Regions.LocationWordFields`, `RegionRoundTrip.LayoutRoundTrip` and `RegionFiles.ReadAfterWrite` assume `RegionRoundTrip.FitsTable`: every slot takes fewer than 256 sectors (a compressed payload of at most 1,044,474 bytes) and the sectors end below 2^23. Beyond that, `Regions.LocationWord` still computes the word as Java does, but a count of 256 or more spills into the sector bits and a sector of 2^23 or more loses its top bits, so a reader finds a different sector and count; what such a file reads back as is not modelled.
- The world's region file name, derived from the region coordinates by `LevelFolder`, is not modelled.

## Findings

| source | as written | input that shows it | evidently intended | confidence | as-written member | corrected member |
|---|---|---|---|---|---|---|
| src/main/java/at/yawk/columbus/Entities.java:45-54 | `setEntityY` and `setEntityZ` write element 0 of `Pos`, the x coordinate | setting y to 5 on an entity at `Pos` (1, 2, 3) gives (5, 2, 3), and `getEntityY` still reads 2 | write elements 1 and 2 | high, not executed | Entities.SetEntityYAsWrittenExample | Entities.EntitySettersGet |
| src/main/java/at/yawk/columbus/Chunk.java:85-98 | `getBiome(x, z)` reads index `(x & 15) * 16 + (z & 15)` while `setBiome(x, z, id)` writes `(z & 15) * 16 + (x & 15)` | `setBiome(1, 0, 5)` on a fresh chunk, then `getBiome(1, 0)`, gives 0 | both use the column index `(z & 15) * 16 + (x & 15)` | high, not executed | Chunks.BiomeReadBackFails | Chunks.BiomeGetAfterSet |
| src/main/java/at/yawk/columbus/World.java:128-155 | `readRegionFile(x, z, …)` stores the chunk of slot i under `getIndex(i & 31, i >> 5)`, ignoring the region coordinates | writing region (1, 0) holding chunk (32, 0) and reading it back stores the chunk under key (0, 0) | store it under `getIndex(32 * x + (i & 31), 32 * z + (i >> 5))` | high, not executed | RegionFiles.ReadRegionMisplacesExample | RegionFiles.ReadAfterWrite |
