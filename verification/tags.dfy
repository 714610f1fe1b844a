/** The NBT tag tree: one variant per tag class, named tags, the type of a
    tag, its default instance, the strict accessors and deep cloning. */
module Tags {
  import opened Bytes
  import opened Wrappers
  import opened TagTypes

  /** A name or string payload: the modified UTF-8 bytes `writeUTF` emits. */
  type Name = seq<byte>

  /** Float and double payloads are kept as their raw IEEE 754 bit patterns. */
  datatype Tag =
    | TagByte(byteValue: int8)
    | TagShort(shortValue: int16)
    | TagInt(intValue: int32)
    | TagLong(longValue: int64)
    | TagFloat(floatBits: uint32)
    | TagDouble(doubleBits: uint64)
    | TagArrayByte(bytes: seq<int8>)
    | TagString(text: Name)
    | TagList(items: seq<Tag>)
    | TagCompound(entries: seq<NamedTag>)
    | TagArrayInt(ints: seq<int32>)

  datatype NamedTag = NamedTag(name: Name, value: Tag)

  /** The boxed value `getNumber` hands out for a numeric tag. */
  datatype Number =
    | ByteNumber(b: int8)
    | ShortNumber(s: int16)
    | IntNumber(i: int32)
    | LongNumber(l: int64)
    | FloatNumber(fbits: uint32)
    | DoubleNumber(dbits: uint64)

  /** The type of a tag is fixed by its variant. */
  function GetType(t: Tag): TagType
  {
    match t
    case TagByte(_) => Byte
    case TagShort(_) => Short
    case TagInt(_) => Int
    case TagLong(_) => Long
    case TagFloat(_) => Float
    case TagDouble(_) => Double
    case TagArrayByte(_) => ArrayByte
    case TagString(_) => String
    case TagList(_) => List
    case TagCompound(_) => Compound
    case TagArrayInt(_) => ArrayInt
  }

  /** The default instance of a type: zero, empty array, empty string, empty
      list or empty compound.  Java leaves the string and array values
      null; the decoder overwrites them before anything reads them. */
  function NewInstance(ty: TagType): (t: Tag)
    ensures GetType(t) == ty
    ensures t.TagByte? ==> t.byteValue == 0
    ensures t.TagShort? ==> t.shortValue == 0
    ensures t.TagInt? ==> t.intValue == 0
    ensures t.TagLong? ==> t.longValue == 0
    ensures t.TagFloat? ==> t.floatBits == 0
    ensures t.TagDouble? ==> t.doubleBits == 0
    ensures t.TagString? ==> t.text == []
    ensures t.TagArrayByte? ==> t.bytes == []
    ensures t.TagArrayInt? ==> t.ints == []
    ensures t.TagList? ==> t.items == []
    ensures t.TagCompound? ==> t.entries == []
  {
    match ty
    case Byte => TagByte(0)
    case Short => TagShort(0)
    case Int => TagInt(0)
    case Long => TagLong(0)
    case Float => TagFloat(0)
    case Double => TagDouble(0)
    case ArrayByte => TagArrayByte([])
    case String => TagString([])
    case List => TagList([])
    case Compound => TagCompound([])
    case ArrayInt => TagArrayInt([])
  }

  /** The strict accessors: each succeeds exactly on its own variant and
      otherwise fails with a type mismatch. */
  function GetByte(t: Tag): (r: Result<int8>)
    ensures r.Ok? <==> GetType(t) == Byte
    ensures r.Ok? ==> t == TagByte(r.value)
    ensures r.Err? ==> r.error == TypeMismatch
  {
    if t.TagByte? then Ok(t.byteValue) else Err(TypeMismatch)
  }

  function GetShort(t: Tag): (r: Result<int16>)
    ensures r.Ok? <==> GetType(t) == Short
    ensures r.Ok? ==> t == TagShort(r.value)
    ensures r.Err? ==> r.error == TypeMismatch
  {
    if t.TagShort? then Ok(t.shortValue) else Err(TypeMismatch)
  }

  function GetInt(t: Tag): (r: Result<int32>)
    ensures r.Ok? <==> GetType(t) == Int
    ensures r.Ok? ==> t == TagInt(r.value)
    ensures r.Err? ==> r.error == TypeMismatch
  {
    if t.TagInt? then Ok(t.intValue) else Err(TypeMismatch)
  }

  function GetLong(t: Tag): (r: Result<int64>)
    ensures r.Ok? <==> GetType(t) == Long
    ensures r.Ok? ==> t == TagLong(r.value)
    ensures r.Err? ==> r.error == TypeMismatch
  {
    if t.TagLong? then Ok(t.longValue) else Err(TypeMismatch)
  }

  function GetFloat(t: Tag): (r: Result<uint32>)
    ensures r.Ok? <==> GetType(t) == Float
    ensures r.Ok? ==> t == TagFloat(r.value)
    ensures r.Err? ==> r.error == TypeMismatch
  {
    if t.TagFloat? then Ok(t.floatBits) else Err(TypeMismatch)
  }

  function GetDouble(t: Tag): (r: Result<uint64>)
    ensures r.Ok? <==> GetType(t) == Double
    ensures r.Ok? ==> t == TagDouble(r.value)
    ensures r.Err? ==> r.error == TypeMismatch
  {
    if t.TagDouble? then Ok(t.doubleBits) else Err(TypeMismatch)
  }

  function GetString(t: Tag): (r: Result<Name>)
    ensures r.Ok? <==> GetType(t) == String
    ensures r.Ok? ==> t == TagString(r.value)
    ensures r.Err? ==> r.error == TypeMismatch
  {
    if t.TagString? then Ok(t.text) else Err(TypeMismatch)
  }

  function GetByteArray(t: Tag): (r: Result<seq<int8>>)
    ensures r.Ok? <==> GetType(t) == ArrayByte
    ensures r.Ok? ==> t == TagArrayByte(r.value)
    ensures r.Err? ==> r.error == TypeMismatch
  {
    if t.TagArrayByte? then Ok(t.bytes) else Err(TypeMismatch)
  }

  function GetIntArray(t: Tag): (r: Result<seq<int32>>)
    ensures r.Ok? <==> GetType(t) == ArrayInt
    ensures r.Ok? ==> t == TagArrayInt(r.value)
    ensures r.Err? ==> r.error == TypeMismatch
  {
    if t.TagArrayInt? then Ok(t.ints) else Err(TypeMismatch)
  }

  function AsCompound(t: Tag): (r: Result<seq<NamedTag>>)
    ensures r.Ok? <==> GetType(t) == Compound
    ensures r.Ok? ==> t == TagCompound(r.value)
    ensures r.Err? ==> r.error == TypeMismatch
  {
    if t.TagCompound? then Ok(t.entries) else Err(TypeMismatch)
  }

  function AsList(t: Tag): (r: Result<seq<Tag>>)
    ensures r.Ok? <==> GetType(t) == List
    ensures r.Ok? ==> t == TagList(r.value)
    ensures r.Err? ==> r.error == TypeMismatch
  {
    if t.TagList? then Ok(t.items) else Err(TypeMismatch)
  }

  predicate IsNumeric(ty: TagType)
  {
    ty in {Byte, Short, Int, Long, Float, Double}
  }

  /** `getNumber` boxes the value of a numeric tag; strings, arrays and
      structures have none. */
  function GetNumber(t: Tag): (r: Result<Number>)
    ensures r.Ok? <==> IsNumeric(GetType(t))
    ensures r.Err? ==> r.error == TypeMismatch
    ensures r.Ok? && t.TagByte? ==> r.value == ByteNumber(t.byteValue)
    ensures r.Ok? && t.TagShort? ==> r.value == ShortNumber(t.shortValue)
    ensures r.Ok? && t.TagInt? ==> r.value == IntNumber(t.intValue)
    ensures r.Ok? && t.TagLong? ==> r.value == LongNumber(t.longValue)
    ensures r.Ok? && t.TagFloat? ==> r.value == FloatNumber(t.floatBits)
    ensures r.Ok? && t.TagDouble? ==> r.value == DoubleNumber(t.doubleBits)
  {
    match t
    case TagByte(v) => Ok(ByteNumber(v))
    case TagShort(v) => Ok(ShortNumber(v))
    case TagInt(v) => Ok(IntNumber(v))
    case TagLong(v) => Ok(LongNumber(v))
    case TagFloat(v) => Ok(FloatNumber(v))
    case TagDouble(v) => Ok(DoubleNumber(v))
    case _ => Err(TypeMismatch)
  }

  /** A string tag hands back its text and refuses numeric access. */
  lemma StringAccess(s: Name)
    ensures GetString(TagString(s)) == Ok(s)
    ensures GetNumber(TagString(s)) == Err(TypeMismatch)
    ensures GetByte(TagString(s)) == Err(TypeMismatch)
  {
  }

  /** A byte tag answers `getByte` and `getNumber`, but the strict
      `getDouble` cast refuses it. */
  lemma ByteAccess(b: int8)
    ensures GetByte(TagByte(b)) == Ok(b)
    ensures GetNumber(TagByte(b)) == Ok(ByteNumber(b))
    ensures GetDouble(TagByte(b)) == Err(TypeMismatch)
  {
  }

  /** Deep copy: arrays are copied, lists and compounds are rebuilt from
      clones of their elements. */
  function Clone(t: Tag): Tag
  {
    match t
    case TagList(items) =>
      TagList(seq(|items|, i requires 0 <= i < |items| => Clone(items[i])))
    case TagCompound(entries) =>
      TagCompound(seq(|entries|, i requires 0 <= i < |entries| => CloneNamed(entries[i])))
    case _ => t
  }

  /** A named tag's clone keeps the name and clones the value. */
  function CloneNamed(n: NamedTag): NamedTag
  {
    NamedTag(n.name, Clone(n.value))
  }

  /** With values instead of references, a clone is equal to its original
      at every depth. */
  lemma {:induction false} CloneEqual(t: Tag)
    ensures Clone(t) == t
  {
    match t
    case TagList(items) =>
      forall i | 0 <= i < |items| ensures Clone(items[i]) == items[i] {
        CloneEqual(items[i]);
      }
      assert Clone(t).items == items;
    case TagCompound(entries) =>
      forall i | 0 <= i < |entries| ensures CloneNamed(entries[i]) == entries[i] {
        CloneEqual(entries[i].value);
      }
      assert Clone(t).entries == entries;
    case _ =>
  }

  lemma CloneNamedEqual(n: NamedTag)
    ensures CloneNamed(n) == n
  {
    CloneEqual(n.value);
  }
}
