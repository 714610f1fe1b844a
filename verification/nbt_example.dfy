/** A worked example of the wire format: the small document of the test
    suite, serialised byte by byte. */
module NbtExample {
  import opened Bytes
  import opened Tags
  import opened TagTypes
  import opened Compounds
  import opened Nbt

  /** A root compound `h` holding one string tag `nm` = `b`. */
  function StringDocument(h: Name, nm: Name, b: Name): NamedTag
  {
    NamedTag(h, TagCompound([NamedTag(nm, TagString(b))]))
  }

  /** The bytes of such a document: compound id, root name, then the one
      entry (string id, name, text) and the end byte. */
  lemma StringDocumentBytes(h: Name, nm: Name, b: Name)
    requires |h| < 0x1_0000 && |nm| < 0x1_0000 && |b| < 0x1_0000
    ensures EntryWellFormed(StringDocument(h, nm, b))
    ensures Serialize(StringDocument(h, nm, b)) ==
      [10] + WriteUtf(h) + ([8] + WriteUtf(nm) + WriteUtf(b)) + [0]
  {
    var entry := NamedTag(nm, TagString(b));
    var doc := StringDocument(h, nm, b);
    StringEntryBytes(nm, b);
    StringDocumentPayload(entry);
    assert Serialize(doc) == [10] + WriteUtf(h) + EncodePayload(doc.value);
  }

  lemma StringEntryBytes(nm: Name, b: Name)
    requires |nm| < 0x1_0000 && |b| < 0x1_0000
    ensures EncodeNamed(NamedTag(nm, TagString(b))) == [8] + WriteUtf(nm) + WriteUtf(b)
  {
  }

  lemma StringDocumentPayload(entry: NamedTag)
    requires EntryWellFormed(entry)
    ensures WellFormed(TagCompound([entry]))
    ensures EncodePayload(TagCompound([entry])) == EncodeNamed(entry) + [0]
  {
    assert UniqueNames([entry]);
    SingleEntry(entry);
  }

  lemma SingleEntry(e: NamedTag)
    requires EntryWellFormed(e)
    ensures EncodeEntries([e]) == EncodeNamed(e)
  {
    assert [e][1..] == [];
  }

  /** A name shorter than 256 bytes has a zero high length byte. */
  lemma WriteUtfShort(s: Name)
    requires |s| < 256
    ensures WriteUtf(s) == [0, |s| as byte] + s
  {
    assert ToBE(|s|, 2) == ToBE(0, 1) + [|s| as byte];
    assert ToBE(0, 1) == [0];
  }

  lemma SmallDocumentRegroup(h: seq<byte>, nm: seq<byte>, b: seq<byte>)
    ensures [10 as byte] + ([0, 11] + h) + ([8] + ([0, 4] + nm) + ([0, 9] + b)) + [0]
      == [10, 0, 11] + h + [8, 0, 4] + nm + [0, 9] + b + [0]
  {
  }

  /** The small test document: a root compound "hello world" holding the
      string "name" = "Bananrama". */
  lemma SmallDocumentBytes(h: Name, nm: Name, b: Name)
    requires h == Ascii("hello world") && nm == Ascii("name") && b == Ascii("Bananrama")
    ensures EntryWellFormed(StringDocument(h, nm, b))
    ensures Serialize(StringDocument(h, nm, b)) ==
      [10, 0, 11] + h + [8, 0, 4] + nm + [0, 9] + b + [0]
  {
    StringDocumentBytes(h, nm, b);
    WriteUtfShort(h);
    WriteUtfShort(nm);
    WriteUtfShort(b);
    SmallDocumentRegroup(h, nm, b);
  }
}
