/** The eleven NBT value kinds and their one-byte ids. */
module TagTypes {
  import opened Bytes
  import opened Wrappers

  datatype TagType =
    | Byte | Short | Int | Long | Float | Double
    | ArrayByte | String | List | Compound | ArrayInt

  /** The id written before every named tag and at the head of every list. */
  function Id(t: TagType): (id: byte)
    ensures 1 <= id <= 11
  {
    match t
    case Byte => 1
    case Short => 2
    case Int => 3
    case Long => 4
    case Float => 5
    case Double => 6
    case ArrayByte => 7
    case String => 8
    case List => 9
    case Compound => 10
    case ArrayInt => 11
  }

  /** The lookup table from ids to types; ids outside 1..11 (0 included) name
      no type and are a format error. */
  function ForId(id: int): (r: Option<TagType>)
    ensures r.Some? <==> 0 < id < 12
    ensures r.Some? ==> Id(r.value) == id
  {
    if id == 1 then Some(Byte)
    else if id == 2 then Some(Short)
    else if id == 3 then Some(Int)
    else if id == 4 then Some(Long)
    else if id == 5 then Some(Float)
    else if id == 6 then Some(Double)
    else if id == 7 then Some(ArrayByte)
    else if id == 8 then Some(String)
    else if id == 9 then Some(List)
    else if id == 10 then Some(Compound)
    else if id == 11 then Some(ArrayInt)
    else None
  }

  /** The table is consistent: ids are distinct and every type is found under
      its own id. */
  lemma ForIdOfId(t: TagType, u: TagType)
    ensures ForId(Id(t)) == Some(t)
    ensures Id(t) == Id(u) <==> t == u
  {
  }
}
