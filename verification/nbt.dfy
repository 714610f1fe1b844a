/** The NBT binary codec: every payload encoder and decoder of the tag
    classes, the compound and list framing, and the top-level named tag. */
module Nbt {
  import opened Bytes
  import opened Wrappers
  import opened TagTypes
  import opened Tags
  import opened Compounds
  import opened Lists

  /** What `serialize` can write without an exception or a corrupt stream:
      names and strings fit `writeUTF`'s 16-bit length, lists are
      homogeneous, compounds have no repeated name, and an int array is
      short enough for `length << 2` not to overflow. */
  predicate WellFormed(t: Tag)
  {
    match t
    case TagArrayByte(bs) => |bs| < 0x8000_0000
    case TagString(s) => |s| < 0x1_0000
    case TagList(items) =>
      |items| < 0x8000_0000 && CheckListIntegrity(items) &&
      forall i | 0 <= i < |items| :: WellFormed(items[i])
    case TagCompound(es) =>
      UniqueNames(es) && forall i | 0 <= i < |es| :: EntryWellFormed(es[i])
    case TagArrayInt(xs) => |xs| < 0x2000_0000
    case _ => true
  }

  predicate EntryWellFormed(n: NamedTag)
  {
    |n.name| < 0x1_0000 && WellFormed(n.value)
  }

  /** Every entry encodes, whether or not names repeat. */
  predicate EntriesEncodable(es: seq<NamedTag>)
  {
    forall i | 0 <= i < |es| :: EntryWellFormed(es[i])
  }

  // ---------------------------------------------------------------------
  // Encoding

  /** `writeUTF`: an unsigned 16-bit length, then the bytes. */
  function WriteUtf(s: Name): (r: seq<byte>)
    requires |s| < 0x1_0000
    ensures |r| == 2 + |s| && r[2..] == s
  {
    ToBE(|s|, 2) + s
  }

  /** The payload of a tag, without type id or name. */
  function EncodePayload(t: Tag): (r: seq<byte>)
    requires WellFormed(t)
    ensures |r| >= 1
  {
    match t
    case TagByte(v) => WriteSigned(v, 1)
    case TagShort(v) => WriteSigned(v, 2)
    case TagInt(v) => WriteSigned(v, 4)
    case TagLong(v) => WriteSigned(v, 8)
    case TagFloat(bits) => ToBE(bits, 4)
    case TagDouble(bits) => ToBE(bits, 8)
    case TagArrayByte(bs) => WriteSigned(|bs|, 4) + Unsign8(bs)
    case TagString(s) => WriteUtf(s)
    case TagList(items) => [Id(ElementType(items))] + WriteSigned(|items|, 4) + EncodeItems(items)
    case TagCompound(es) => EncodeEntries(es) + [0]
    case TagArrayInt(xs) => WriteSigned(|xs|, 4) + WriteInts(xs)
  }

  /** The bare payloads of list elements, one after the other. */
  function EncodeItems(items: seq<Tag>): seq<byte>
    requires forall i | 0 <= i < |items| :: WellFormed(items[i])
  {
    if |items| == 0 then [] else EncodePayload(items[0]) + EncodeItems(items[1..])
  }

  /** The entries of a compound in sequence order, without the end byte. */
  function EncodeEntries(es: seq<NamedTag>): seq<byte>
    requires EntriesEncodable(es)
  {
    if |es| == 0 then [] else EncodeNamed(es[0]) + EncodeEntries(es[1..])
  }

  /** A named tag: type id, name, payload. */
  function EncodeNamed(n: NamedTag): (r: seq<byte>)
    requires EntryWellFormed(n)
  {
    [Id(GetType(n.value))] + WriteUtf(n.name) + EncodePayload(n.value)
  }

  // ---------------------------------------------------------------------
  // Decoding

  /** `readUTF`: an unsigned 16-bit length, then that many bytes. */
  function ReadUtf(s: seq<byte>): (r: Result<(Name, seq<byte>)>)
    ensures r.Ok? ==> |r.value.0| < 0x1_0000 && |r.value.1| <= |s| - 2
    ensures r.Ok? ==> s == WriteUtf(r.value.0) + r.value.1
    ensures r.Err? ==> r.error == EndOfInput
  {
    if |s| < 2 then Err(EndOfInput)
    else
      var n := FromBE(s[..2]);
      if |s| - 2 < n then Err(EndOfInput)
      else
        ToFromBE(s[..2]);
        assert s == s[..2] + s[2..2 + n] + s[2 + n..];
        Ok((s[2..2 + n], s[2 + n..]))
  }

  /** The type byte that opens a list: 0 is read as BYTE, other ids outside
      1..11 are an error. */
  function ListElementType(id: int): (r: Result<TagType>)
    ensures r.Ok? <==> 0 <= id < 12
    ensures 0 < id < 12 ==> r == Ok(ForId(id).value)
    ensures id == 0 ==> r == Ok(Byte)
    ensures r.Err? ==> r.error == UnknownTagType(id)
  {
    if id == 0 then Ok(Byte)
    else if ForId(id).Some? then Ok(ForId(id).value)
    else Err(UnknownTagType(id))
  }

  /** The type byte in front of a named tag: ids outside 1..11 are an error. */
  function TypeFromId(id: int): (r: Result<TagType>)
    ensures r.Ok? <==> 0 < id < 12
    ensures r.Ok? ==> Id(r.value) == id
    ensures r.Err? ==> r.error == UnknownTagType(id)
  {
    match ForId(id)
    case Some(ty) => Ok(ty)
    case None => Err(UnknownTagType(id))
  }

  /** The payload of a tag of type `ty` at the front of `s`, and the bytes
      after it.  Every payload takes at least one byte. */
  function DecodePayload(ty: TagType, s: seq<byte>): (r: Result<(Tag, seq<byte>)>)
    ensures r.Ok? ==> |r.value.1| < |s|
    ensures r.Ok? ==> GetType(r.value.0) == ty && WellFormed(r.value.0)
    decreases |s|, 2
  {
    match ty
    case ArrayByte => DecodeByteArray(s)
    case List => DecodeList(s)
    case Compound => DecodeCompound(s)
    case ArrayInt => DecodeIntArray(s)
    case _ => DecodeScalar(ty, s)
  }

  /** The payloads of fixed width and strings: the number, or the modified
      UTF-8 string, at the front of `s`. */
  function DecodeScalar(ty: TagType, s: seq<byte>): (r: Result<(Tag, seq<byte>)>)
    requires !ty.ArrayByte? && !ty.List? && !ty.Compound? && !ty.ArrayInt?
    ensures r.Ok? ==> |r.value.1| < |s|
    ensures r.Ok? ==> GetType(r.value.0) == ty && WellFormed(r.value.0)
  {
    match ty
    case Float =>
      if |s| < 4 then Err(EndOfInput) else Ok((TagFloat(FromBE(s[..4])), s[4..]))
    case Double =>
      if |s| < 8 then Err(EndOfInput) else Ok((TagDouble(FromBE(s[..8])), s[8..]))
    case String =>
      var p :- ReadUtf(s);
      Ok((TagString(p.0), p.1))
    case Byte => DecodeInteger(ty, s)
    case Short => DecodeInteger(ty, s)
    case Int => DecodeInteger(ty, s)
    case Long => DecodeInteger(ty, s)
  }

  /** The big-endian two's-complement integer of a byte, short, int or
      long payload. */
  function DecodeInteger(ty: TagType, s: seq<byte>): (r: Result<(Tag, seq<byte>)>)
    requires ty.Byte? || ty.Short? || ty.Int? || ty.Long?
    ensures r.Ok? ==> |r.value.1| < |s|
    ensures r.Ok? ==> GetType(r.value.0) == ty && WellFormed(r.value.0)
  {
    match ty
    case Byte =>
      var p :- ReadSigned(s, 1);
      Ok((TagByte(p.0), p.1))
    case Short =>
      var p :- ReadSigned(s, 2);
      Ok((TagShort(p.0), p.1))
    case Int =>
      var p :- ReadSigned(s, 4);
      Ok((TagInt(p.0), p.1))
    case Long =>
      var p :- ReadSigned(s, 8);
      Ok((TagLong(p.0), p.1))
  }

  /** `TagArrayByte.deserialize`: a signed 32-bit length, then the bytes. */
  function DecodeByteArray(s: seq<byte>): (r: Result<(Tag, seq<byte>)>)
    ensures r.Ok? ==> |r.value.1| < |s|
    ensures r.Ok? ==> r.value.0.TagArrayByte? && WellFormed(r.value.0)
    ensures |s| >= 4 && Signed(FromBE(s[..4]), 0x1_0000_0000) < 0 ==>
      r == Err(NegativeSize(Signed(FromBE(s[..4]), 0x1_0000_0000)))
  {
    var p :- ReadSigned(s, 4);
    var n, rest := p.0, p.1;
    if n < 0 then Err(NegativeSize(n))
    else if |rest| < n then Err(EndOfInput)
    else Ok((TagArrayByte(Sign8(rest[..n])), rest[n..]))
  }

  /** `TagArrayInt.deserialize`: a signed 32-bit count `n`; the byte size is
      computed as the 32-bit `n << 2`, which is checked before the count. */
  function DecodeIntArray(s: seq<byte>): (r: Result<(Tag, seq<byte>)>)
    ensures r.Ok? ==> |r.value.1| < |s|
    ensures r.Ok? ==> r.value.0.TagArrayInt? && WellFormed(r.value.0)
    ensures r.Ok? ==> |s| == 4 + 4 * |r.value.0.ints| + |r.value.1|
    ensures |s| < 4 ==> r == Err(EndOfInput)
    ensures |s| >= 4 ==>
      var size := ToInt32(4 * Signed(FromBE(s[..4]), 0x1_0000_0000));
      (size < 0 ==> r == Err(NegativeSize(size))) &&
      (0 <= size && |s| - 4 < size ==> r == Err(EndOfInput))
  {
    var p :- ReadSigned(s, 4);
    var n, rest := p.0, p.1;
    var size := ToInt32(n * 4);
    if size < 0 then Err(NegativeSize(size))
    else if |rest| < size then Err(EndOfInput)
    else if n < 0 then Err(NegativeSize(n))
    else if size != 4 * n then Err(SizeOverflow(n))
    else Ok(IntsBody(rest, n))
  }

  /** The `n` ints that follow the count, and the bytes after them. */
  function IntsBody(rest: seq<byte>, n: nat): (r: (Tag, seq<byte>))
    requires 4 * n <= |rest|
    ensures r.0.TagArrayInt? && |r.0.ints| == n && r.1 == rest[4 * n..]
  {
    (TagArrayInt(ReadInts(rest[..4 * n])), rest[4 * n..])
  }

  /** `TagList.deserialize`: element type byte, signed 32-bit count, then
      that many payloads. */
  function DecodeList(s: seq<byte>): (r: Result<(Tag, seq<byte>)>)
    ensures r.Ok? ==> |r.value.1| < |s|
    ensures r.Ok? ==> r.value.0.TagList? && WellFormed(r.value.0)
    decreases |s|, 1
  {
    var h :- ReadSigned(s, 1);
    var elem :- ListElementType(h.0);
    var c :- ReadSigned(h.1, 4);
    var n := c.0;
    if n < 0 then Err(NegativeSize(n))
    else
      var q :- DecodeItems(elem, n, c.1);
      Ok((TagList(q.0), q.1))
  }

  /** `TagCompound.deserialize`: entries into an empty compound. */
  function DecodeCompound(s: seq<byte>): (r: Result<(Tag, seq<byte>)>)
    ensures r.Ok? ==> |r.value.1| < |s|
    ensures r.Ok? ==> r.value.0.TagCompound? && WellFormed(r.value.0)
    decreases |s|, 1
  {
    var q :- DecodeEntries(s, []);
    Ok((TagCompound(q.0), q.1))
  }

  /** Exactly `n` payloads of type `ty`, in order. */
  function DecodeItems(ty: TagType, n: nat, s: seq<byte>): (r: Result<(seq<Tag>, seq<byte>)>)
    ensures r.Ok? ==> |r.value.1| <= |s|
    ensures r.Ok? ==> |r.value.0| == n
    ensures r.Ok? ==> AllOfType(r.value.0, ty)
    ensures r.Ok? ==> forall i | 0 <= i < n :: WellFormed(r.value.0[i])
    decreases |s|, 3, n
  {
    if n == 0 then Ok(([], s))
    else
      var p :- DecodePayload(ty, s);
      var q :- DecodeItems(ty, n - 1, p.1);
      Ok(([p.0] + q.0, q.1))
  }

  /** Compound entries up to and including the end byte 0; each entry is
      stored with `Put`, so a repeated name keeps its last value. */
  function DecodeEntries(s: seq<byte>, acc: seq<NamedTag>): (r: Result<(seq<NamedTag>, seq<byte>)>)
    requires UniqueNames(acc) && EntriesEncodable(acc)
    ensures r.Ok? ==> |r.value.1| < |s|
    ensures r.Ok? ==> UniqueNames(r.value.0) && EntriesEncodable(r.value.0)
    decreases |s|, 0
  {
    var h :- ReadSigned(s, 1);
    if h.0 == 0 then Ok((acc, h.1))
    else
      var ty :- TypeFromId(h.0);
      var nm :- ReadUtf(h.1);
      var p :- DecodePayload(ty, nm.1);
      PutEncodable(acc, nm.0, p.0);
      PutUnique(acc, nm.0, p.0);
      DecodeEntries(p.1, Put(acc, nm.0, p.0))
  }

  /** Storing a well-formed entry keeps every entry encodable. */
  lemma {:induction false} PutEncodable(es: seq<NamedTag>, name: Name, t: Tag)
    requires EntriesEncodable(es) && |name| < 0x1_0000 && WellFormed(t)
    ensures EntriesEncodable(Put(es, name, t))
    decreases |es|
  {
    if |es| > 0 {
      var r := Put(es, name, t);
      if es[0].name == name {
        assert r == [NamedTag(name, t)] + es[1..];
        forall i | 0 <= i < |r| ensures EntryWellFormed(r[i]) {
          if i > 0 {
            assert r[i] == es[i];
          }
        }
      } else {
        var tail := Put(es[1..], name, t);
        PutEncodable(es[1..], name, t);
        assert r == [es[0]] + tail;
        forall i | 0 <= i < |r| ensures EntryWellFormed(r[i]) {
          if i > 0 {
            assert r[i] == tail[i - 1];
          }
        }
      }
    }
  }

  // ---------------------------------------------------------------------
  // Top level

  /** `NBT.serialize`: the root named tag. */
  function Serialize(n: NamedTag): (r: seq<byte>)
    requires EntryWellFormed(n)
    ensures |r| >= 4 + |n.name| && r[0] == Id(GetType(n.value))
    ensures r[1..3] == ToBE(|n.name|, 2) && r[3..3 + |n.name|] == n.name
  {
    var r := EncodeNamed(n);
    assert r[1..3] == WriteUtf(n.name)[..2];
    assert r[3..3 + |n.name|] == WriteUtf(n.name)[2..];
    r
  }

  /** `NBT.deserialize`: type byte, name and payload of the root tag; the
      bytes after it are left unread. */
  function Deserialize(s: seq<byte>): (r: Result<(NamedTag, seq<byte>)>)
    ensures r.Ok? ==> EntryWellFormed(r.value.0) && |r.value.1| < |s|
    ensures |s| >= 1 && !(0 < Signed(s[0], 256) < 12) ==> r == Err(UnknownTagType(Signed(s[0], 256)))
  {
    var h :- ReadSigned(s, 1);
    assert h.0 == Signed(s[0], 256) by {
      assert s[..1] == [s[0]];
    }
    var ty :- TypeFromId(h.0);
    var nm :- ReadUtf(h.1);
    var p :- DecodePayload(ty, nm.1);
    Ok((NamedTag(nm.0, p.0), p.1))
  }

  /** `NBT.serializeArray`. */
  function SerializeArray(n: NamedTag): seq<byte>
    requires EntryWellFormed(n)
  {
    Serialize(n)
  }

  /** `NBT.deserializeArray`: trailing bytes after the root tag are ignored. */
  function DeserializeArray(s: seq<byte>): (r: Result<NamedTag>)
    ensures r.Ok? <==> Deserialize(s).Ok?
    ensures r.Ok? ==> r.value == Deserialize(s).value.0
  {
    var p :- Deserialize(s);
    Ok(p.0)
  }
}
