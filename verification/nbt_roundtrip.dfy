/** Decoding undoes encoding: for every well-formed tag, the decoder reads
    back exactly the bytes the encoder wrote and leaves whatever follows. */
module NbtRoundTrip {
  import opened Bytes
  import opened Wrappers
  import opened TagTypes
  import opened Tags
  import opened Compounds
  import opened Lists
  import opened Nbt

  /** A single id byte below 0x80 reads back as itself. */
  lemma ReadIdByte(b: byte, rest: seq<byte>)
    requires b < 0x80
    ensures ReadSigned([b] + rest, 1) == Ok((b, rest))
  {
    SplitAt([b], rest);
    assert [b][..0] == [];
  }

  lemma ReadUtfWriteUtf(name: Name, rest: seq<byte>)
    requires |name| < 0x1_0000
    ensures ReadUtf(WriteUtf(name) + rest) == Ok((name, rest))
  {
    var len := ToBE(|name|, 2);
    var s := WriteUtf(name) + rest;
    Assoc3(len, name, rest);
    SplitAt(len, name + rest);
    FromToBE(|name|, 2);
    SplitAt(name, rest);
    assert s[2..][..|name|] == name;
    assert s[2..][|name|..] == rest;
  }

  lemma {:induction false} PayloadRoundTrip(t: Tag, rest: seq<byte>)
    requires WellFormed(t)
    ensures DecodePayload(GetType(t), EncodePayload(t) + rest) == Ok((t, rest))
    decreases t, 2
  {
    if t.TagList? {
      ListRoundTrip(t.items, rest);
      DecodeDispatch(EncodePayload(t) + rest);
    } else if t.TagCompound? {
      CompoundRoundTrip(t.entries, rest);
      DecodeDispatch(EncodePayload(t) + rest);
    } else {
      ScalarRoundTrip(t, rest);
    }
  }

  /** Tags without children decode from their own payload. */
  lemma ScalarRoundTrip(t: Tag, rest: seq<byte>)
    requires WellFormed(t) && !t.TagList? && !t.TagCompound?
    ensures DecodePayload(GetType(t), EncodePayload(t) + rest) == Ok((t, rest))
  {
    match t
    case TagByte(v) => ByteRoundTrip(v, rest);
    case TagShort(v) => ShortRoundTrip(v, rest);
    case TagInt(v) => IntRoundTrip(v, rest);
    case TagLong(v) => LongRoundTrip(v, rest);
    case TagFloat(bits) => FloatRoundTrip(bits, rest);
    case TagDouble(bits) => DoubleRoundTrip(bits, rest);
    case TagString(text) => StringRoundTrip(text, rest);
    case TagArrayByte(bs) => ByteArrayRoundTrip(bs, rest); DecodeDispatch(EncodePayload(t) + rest);
    case TagArrayInt(xs) => IntArrayRoundTrip(xs, rest); DecodeDispatch(EncodePayload(t) + rest);
  }

  /** The array, list and compound payloads have decoders of their own. */
  lemma DecodeDispatch(s: seq<byte>)
    ensures DecodePayload(ArrayByte, s) == DecodeByteArray(s)
    ensures DecodePayload(ArrayInt, s) == DecodeIntArray(s)
    ensures DecodePayload(List, s) == DecodeList(s)
    ensures DecodePayload(Compound, s) == DecodeCompound(s)
  {
    DispatchArrays(s);
    DispatchList(s);
    DispatchCompound(s);
  }

  lemma DispatchArrays(s: seq<byte>)
    ensures DecodePayload(ArrayByte, s) == DecodeByteArray(s)
    ensures DecodePayload(ArrayInt, s) == DecodeIntArray(s)
  {
  }

  lemma DispatchList(s: seq<byte>)
    ensures DecodePayload(List, s) == DecodeList(s)
  {
  }

  lemma DispatchCompound(s: seq<byte>)
    ensures DecodePayload(Compound, s) == DecodeCompound(s)
  {
  }

  lemma ByteRoundTrip(v: int8, rest: seq<byte>)
    ensures DecodePayload(Byte, EncodePayload(TagByte(v)) + rest) == Ok((TagByte(v), rest))
  {
    ReadWriteSigned(v, 1, rest);
  }

  lemma ShortRoundTrip(v: int16, rest: seq<byte>)
    ensures DecodePayload(Short, EncodePayload(TagShort(v)) + rest) == Ok((TagShort(v), rest))
  {
    ReadWriteSigned(v, 2, rest);
  }

  lemma IntRoundTrip(v: int32, rest: seq<byte>)
    ensures DecodePayload(Int, EncodePayload(TagInt(v)) + rest) == Ok((TagInt(v), rest))
  {
    ReadWriteSigned(v, 4, rest);
  }

  lemma LongRoundTrip(v: int64, rest: seq<byte>)
    ensures DecodePayload(Long, EncodePayload(TagLong(v)) + rest) == Ok((TagLong(v), rest))
  {
    ReadWriteSigned(v, 8, rest);
  }

  lemma FloatRoundTrip(bits: uint32, rest: seq<byte>)
    ensures DecodePayload(Float, EncodePayload(TagFloat(bits)) + rest) == Ok((TagFloat(bits), rest))
  {
    BitsRoundTrip(bits, 4, rest);
  }

  lemma DoubleRoundTrip(bits: uint64, rest: seq<byte>)
    ensures DecodePayload(Double, EncodePayload(TagDouble(bits)) + rest) == Ok((TagDouble(bits), rest))
  {
    BitsRoundTrip(bits, 8, rest);
  }

  lemma StringRoundTrip(text: Name, rest: seq<byte>)
    requires |text| < 0x1_0000
    ensures DecodePayload(String, EncodePayload(TagString(text)) + rest) == Ok((TagString(text), rest))
  {
    ReadUtfWriteUtf(text, rest);
  }

  /** Float and double bit patterns are read back unsigned. */
  lemma BitsRoundTrip(bits: nat, n: nat, rest: seq<byte>)
    requires bits < Pow256(n)
    ensures |ToBE(bits, n) + rest| >= n
    ensures FromBE((ToBE(bits, n) + rest)[..n]) == bits && (ToBE(bits, n) + rest)[n..] == rest
  {
    SplitAt(ToBE(bits, n), rest);
    FromToBE(bits, n);
  }

  lemma ByteArrayRoundTrip(bs: seq<int8>, rest: seq<byte>)
    requires |bs| < 0x8000_0000
    ensures DecodeByteArray(EncodePayload(TagArrayByte(bs)) + rest) == Ok((TagArrayByte(bs), rest))
  {
    var body := Unsign8(bs) + rest;
    Assoc3(WriteSigned(|bs|, 4), Unsign8(bs), rest);
    ReadWriteSigned(|bs|, 4, body);
    SplitAt(Unsign8(bs), rest);
    Sign8Unsign8(bs);
  }

  lemma IntArrayRoundTrip(xs: seq<int32>, rest: seq<byte>)
    requires |xs| < 0x2000_0000
    ensures DecodeIntArray(EncodePayload(TagArrayInt(xs)) + rest) == Ok((TagArrayInt(xs), rest))
  {
    var body := WriteInts(xs) + rest;
    Assoc3(WriteSigned(|xs|, 4), WriteInts(xs), rest);
    ReadWriteSigned(|xs|, 4, body);
    assert ToInt32(|xs| * 4) == 4 * |xs|;
    SplitAt(WriteInts(xs), rest);
    ReadWriteInts(xs);
  }

  lemma {:induction false} ListRoundTrip(items: seq<Tag>, rest: seq<byte>)
    requires WellFormed(TagList(items))
    ensures DecodeList(EncodePayload(TagList(items)) + rest) == Ok((TagList(items), rest))
    decreases items, 1
  {
    var ty := ElementType(items);
    var body := EncodeItems(items) + rest;
    Assoc4([Id(ty)], WriteSigned(|items|, 4), EncodeItems(items), rest);
    ReadIdByte(Id(ty), WriteSigned(|items|, 4) + body);
    ForIdOfId(ty, ty);
    ReadWriteSigned(|items|, 4, body);
    ItemsRoundTrip(items, ty, rest);
  }

  lemma {:induction false} CompoundRoundTrip(es: seq<NamedTag>, rest: seq<byte>)
    requires WellFormed(TagCompound(es))
    ensures DecodeCompound(EncodePayload(TagCompound(es)) + rest) == Ok((TagCompound(es), rest))
    decreases es, 1
  {
    var s := EncodeEntries(es) + [0] + rest;
    CompoundSplit(es, rest);
    EntriesRoundTrip(es, [], rest);
    assert [] + es == es;
    PutAllFresh([], es);
    assert DecodeEntries(s, []) == Ok((es, rest));
  }

  lemma CompoundSplit(es: seq<NamedTag>, rest: seq<byte>)
    requires WellFormed(TagCompound(es))
    ensures EncodePayload(TagCompound(es)) + rest == EncodeEntries(es) + [0] + rest
  {
  }

  lemma {:induction false} ItemsRoundTrip(items: seq<Tag>, ty: TagType, rest: seq<byte>)
    requires forall i | 0 <= i < |items| :: WellFormed(items[i])
    requires AllOfType(items, ty)
    ensures DecodeItems(ty, |items|, EncodeItems(items) + rest) == Ok((items, rest))
    decreases items, 0
  {
    if |items| > 0 {
      var tail := EncodeItems(items[1..]) + rest;
      Assoc3(EncodePayload(items[0]), EncodeItems(items[1..]), rest);
      assert GetType(items[0]) == ty;
      PayloadRoundTrip(items[0], tail);
      assert DecodePayload(ty, EncodeItems(items) + rest) == Ok((items[0], tail));
      ItemsRoundTrip(items[1..], ty, rest);
      assert DecodeItems(ty, |items| - 1, tail) == Ok((items[1..], rest));
      assert [items[0]] + items[1..] == items;
    } else {
      assert EncodeItems(items) + rest == rest;
    }
  }

  /** One encoded entry whose payload decodes back is read and stored. */
  lemma DecodeOneEntry(e: NamedTag, tail: seq<byte>, acc: seq<NamedTag>)
    requires EntryWellFormed(e)
    requires UniqueNames(acc) && EntriesEncodable(acc)
    requires EntriesEncodable(Put(acc, e.name, e.value)) && UniqueNames(Put(acc, e.name, e.value))
    requires DecodePayload(GetType(e.value), EncodePayload(e.value) + tail) == Ok((e.value, tail))
    ensures DecodeEntries(EncodeNamed(e) + tail, acc) == DecodeEntries(tail, Put(acc, e.name, e.value))
  {
    var ty := GetType(e.value);
    var afterName := EncodePayload(e.value) + tail;
    var afterId := WriteUtf(e.name) + afterName;
    var s := EncodeNamed(e) + tail;
    EncodeNamedSplit(e, tail);
    ReadIdByte(Id(ty), afterId);
    ForIdOfId(ty, ty);
    ReadUtfWriteUtf(e.name, afterName);
    DecodeEntriesStep(s, acc, Id(ty), afterId, ty, e.name, afterName, e.value, tail);
  }

  lemma EncodeNamedSplit(e: NamedTag, tail: seq<byte>)
    requires EntryWellFormed(e)
    ensures EncodeNamed(e) + tail
      == [Id(GetType(e.value))] + (WriteUtf(e.name) + (EncodePayload(e.value) + tail))
  {
    Assoc4([Id(GetType(e.value))], WriteUtf(e.name), EncodePayload(e.value), tail);
  }

  /** One turn of the compound decoding loop, given what each read returns. */
  lemma DecodeEntriesStep(s: seq<byte>, acc: seq<NamedTag>, id: int, afterId: seq<byte>, ty: TagType,
                          name: Name, afterName: seq<byte>, v: Tag, tail: seq<byte>)
    requires UniqueNames(acc) && EntriesEncodable(acc)
    requires EntriesEncodable(Put(acc, name, v)) && UniqueNames(Put(acc, name, v))
    requires ReadSigned(s, 1) == Ok((id, afterId)) && id != 0
    requires TypeFromId(id) == Ok(ty)
    requires ReadUtf(afterId) == Ok((name, afterName))
    requires DecodePayload(ty, afterName) == Ok((v, tail))
    ensures DecodeEntries(s, acc) == DecodeEntries(tail, Put(acc, name, v))
  {
  }

  /** Decoding a run of encoded entries stores each one in turn; this holds
      for any entries, with or without repeated names. */
  lemma {:induction false} EntriesRoundTrip(es: seq<NamedTag>, acc: seq<NamedTag>, rest: seq<byte>)
    requires EntriesEncodable(es)
    requires UniqueNames(acc) && EntriesEncodable(acc)
    ensures DecodeEntries(EncodeEntries(es) + [0] + rest, acc) == Ok((PutAll(acc, es), rest))
    decreases es, 0
  {
    if |es| == 0 {
      assert EncodeEntries(es) + [0] + rest == [0] + rest;
      ReadIdByte(0, rest);
    } else {
      var e := es[0];
      var tail := EncodeEntries(es[1..]) + [0] + rest;
      Assoc4(EncodeNamed(e), EncodeEntries(es[1..]), [0], rest);
      Assoc3(EncodeEntries(es[1..]), [0], rest);
      PayloadRoundTrip(e.value, tail);
      PutEncodable(acc, e.name, e.value);
      PutUnique(acc, e.name, e.value);
      DecodeOneEntry(e, tail, acc);
      EntriesRoundTrip(es[1..], Put(acc, e.name, e.value), rest);
    }
  }

  /** `NBT.deserialize(NBT.serialize(t)) == t`, leaving any following bytes. */
  lemma SerializeRoundTrip(n: NamedTag, rest: seq<byte>)
    requires EntryWellFormed(n)
    ensures Deserialize(Serialize(n) + rest) == Ok((n, rest))
  {
    var ty := GetType(n.value);
    var afterName := EncodePayload(n.value) + rest;
    assert Serialize(n) == EncodeNamed(n);
    EncodeNamedSplit(n, rest);
    ReadIdByte(Id(ty), WriteUtf(n.name) + afterName);
    ForIdOfId(ty, ty);
    ReadUtfWriteUtf(n.name, afterName);
    PayloadRoundTrip(n.value, rest);
  }

  /** The array wrappers round-trip too. */
  lemma ArrayRoundTrip(n: NamedTag)
    requires EntryWellFormed(n)
    ensures DeserializeArray(SerializeArray(n)) == Ok(n)
  {
    var s := SerializeArray(n);
    assert s + [] == s;
    SerializeRoundTrip(n, []);
  }

  /** Compound decoding keeps, for a repeated name, the value of its last
      occurrence in the stream. */
  lemma DecodeLastWins(es: seq<NamedTag>, rest: seq<byte>, name: Name)
    requires EntriesEncodable(es)
    ensures DecodeCompound(EncodeEntries(es) + [0] + rest).Ok?
    ensures Lookup(DecodeCompound(EncodeEntries(es) + [0] + rest).value.0.entries, name)
      == LastValue(es, name)
  {
    EntriesRoundTrip(es, [], rest);
    assert DecodeCompound(EncodeEntries(es) + [0] + rest) == Ok((TagCompound(PutAll([], es)), rest));
    PutAllLastWins([], es, name);
  }

  /** The Java compound writes its entries in hash order.  Whatever order
      they are written in, the decoded compound maps every name to the
      same tag as the original. */
  lemma DecodeAnyOrder(es: seq<NamedTag>, emitted: seq<NamedTag>, rest: seq<byte>, name: Name)
    requires WellFormed(TagCompound(es))
    requires multiset(emitted) == multiset(es)
    ensures EntriesEncodable(emitted)
    ensures DecodeCompound(EncodeEntries(emitted) + [0] + rest).Ok?
    ensures Lookup(DecodeCompound(EncodeEntries(emitted) + [0] + rest).value.0.entries, name)
      == Lookup(es, name)
  {
    forall i | 0 <= i < |emitted| ensures EntryWellFormed(emitted[i]) {
      assert emitted[i] in multiset(es);
    }
    DecodeLastWins(emitted, rest, name);
    LastValueReordered(es, emitted, name);
  }
}
