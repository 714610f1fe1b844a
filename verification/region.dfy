/** The region file layout: 1024 location words, 1024 timestamps, then the
    framed payloads in 4096-byte sectors.  The writer here lays out given
    compressed payloads; the reader takes the chunk decoder and the key of a
    slot as parameters, so that the layout can be reasoned about apart from
    what the payloads hold. */
module Regions {
  import opened Bytes
  import opened Wrappers
  import opened Bits
  import Chunks
  import Worlds

  /** Bytes per sector. */
  const SectorSize := 4096
  /** Chunk slots per region file: 32 by 32. */
  const SlotCount := 1024
  /** The longest payload for which the writer's int arithmetic
      (`length + 5`, `sectorCount << 12`) cannot overflow. */
  const MaxPayload := 0x7FFF_E000
  /** The most sectors one payload of at most `MaxPayload` bytes takes. */
  const MaxCount := 0x7_FFFF

  /** A present slot as the writer sees it: the compressed chunk document and
      the chunk's last-update time. */
  datatype Stored = Stored(data: seq<byte>, lastUpdated: int64)

  /** The writer's input: one entry per slot, payloads short enough. */
  predicate Sized(slots: seq<Option<Stored>>)
  {
    |slots| == SlotCount &&
    forall i | 0 <= i < |slots| :: slots[i].Some? ==> |slots[i].value.data| <= MaxPayload
  }

  // ---------------------------------------------------------------------
  // Sector allocation

  /** `(length + 5 >> 12) + 1`: the sectors a payload takes with its 5-byte
      frame header.  It is the least count whose sectors hold the frame and
      at least one padding byte, so a frame that exactly fills its sectors
      gets one more. */
  function SectorCount(len: nat): (n: nat)
    ensures n >= 1
    ensures (n - 1) * SectorSize <= len + 5 < n * SectorSize
    ensures len <= MaxPayload ==> n <= MaxCount
  {
    (len + 5) / SectorSize + 1
  }

  /** A frame of 4091 bytes fills one sector exactly and gets a second. */
  lemma SectorCountExamples()
    ensures SectorCount(4090) == 1
    ensures SectorCount(4091) == 2 && SectorCount(4092) == 2
  {
    assert (4091 + 5) / SectorSize == 1;
  }

  /** The sectors a slot takes: none when it is empty. */
  function Count(slot: Option<Stored>): (n: nat)
    ensures slot.None? <==> n == 0
  {
    if slot.None? then 0 else SectorCount(|slot.value.data|)
  }

  /** The sectors a run of slots takes together. */
  function Used(slots: seq<Option<Stored>>): (n: nat)
    ensures (forall i | 0 <= i < |slots| :: slots[i].Some? ==> |slots[i].value.data| <= MaxPayload) ==>
      n <= MaxCount * |slots|
  {
    if |slots| == 0 then 0 else Count(slots[0]) + Used(slots[1..])
  }

  lemma {:induction false} UsedAppend(a: seq<Option<Stored>>, b: seq<Option<Stored>>)
    ensures Used(a + b) == Used(a) + Used(b)
    decreases |a|
  {
    if |a| > 0 {
      assert (a + b)[0] == a[0];
      assert (a + b)[1..] == a[1..] + b;
      UsedAppend(a[1..], b);
      assert Used(a + b) == Count(a[0]) + Used(a[1..] + b);
    } else {
      assert a + b == b;
    }
  }

  /** `usedSectors` when the scan reaches slot `i`: the two header sectors
      and the sectors of every earlier slot. */
  function SectorOf(slots: seq<Option<Stored>>, i: nat): (s: nat)
    requires i <= |slots|
    ensures s >= 2
  {
    2 + Used(slots[..i])
  }

  /** Moving one slot on adds that slot's sectors. */
  lemma SectorOfNext(slots: seq<Option<Stored>>, i: nat)
    requires i < |slots|
    ensures SectorOf(slots, i + 1) == SectorOf(slots, i) + Count(slots[i])
  {
    assert slots[..i + 1] == slots[..i] + [slots[i]];
    UsedAppend(slots[..i], [slots[i]]);
    assert Used([slots[i]]) == Count(slots[i]) + Used([]);
  }

  /** Sectors only grow along the scan. */
  lemma {:induction false} SectorOfMonotone(slots: seq<Option<Stored>>, i: nat, j: nat)
    requires i <= j <= |slots|
    ensures SectorOf(slots, i) + (if i < j then Count(slots[i]) else 0) <= SectorOf(slots, j)
    decreases j - i
  {
    if i < j {
      SectorOfNext(slots, i);
      SectorOfMonotone(slots, i + 1, j);
    }
  }

  /** The allocation is contiguous and never overlaps: two present slots
      get disjoint sector ranges, both after the header. */
  lemma SectorsDisjoint(slots: seq<Option<Stored>>, i: nat, j: nat)
    requires i < j < |slots| && slots[i].Some? && slots[j].Some?
    ensures 2 <= SectorOf(slots, i) && SectorOf(slots, i) + Count(slots[i]) <= SectorOf(slots, j)
  {
    SectorOfMonotone(slots, i, j);
  }

  /** Every slot's sector number fits the int the writer keeps it in. */
  lemma SectorBound(slots: seq<Option<Stored>>, i: nat)
    requires Sized(slots) && i <= |slots|
    ensures SectorOf(slots, i) <= 2 + MaxCount * i
  {
    assert forall k | 0 <= k < i :: slots[..i][k] == slots[k];
  }

  // ---------------------------------------------------------------------
  // Header

  /** `sector << 8 | sectorCount` as Java computes it: the shift wraps at 32
      bits and the count's bits may overlap the sector's. */
  function LocationWord(sector: nat, count: nat): (w: int32)
    requires sector < 0x8000_0000 && 1 <= count < 0x8000_0000
    ensures w != 0
  {
    var h := ToInt32(sector * 256);
    var r := JavaOr(h, count);
    assert r != 0 by {
      var u := BitOr(Unsigned(h, 0x1_0000_0000), count);
      assert u >= 1;
      Pow2Value();
      OrBelow(Unsigned(h, 0x1_0000_0000), count, 32);
    }
    r
  }

  /** Within the format's limits the word packs sector and count exactly, and
      `id >> 8`, `id & 0xFF` take them apart again. */
  lemma LocationWordFields(sector: nat, count: nat)
    requires 1 <= sector < 0x80_0000 && 1 <= count < 256
    ensures LocationWord(sector, count) == sector * 256 + count
    ensures LocationWord(sector, count) / 256 == sector && LocationWord(sector, count) % 256 == count
  {
    Pow2Value();
    OrDisjoint(sector, count, 8);
    OrBelow(sector * 256, count, 31);
  }

  /** The location word of one slot: 0 when it is empty. */
  function Word(slots: seq<Option<Stored>>, i: nat): (w: int32)
    requires Sized(slots) && i < |slots|
    ensures w == 0 <==> slots[i].None?
  {
    if slots[i].None? then 0
    else
      SectorBound(slots, i);
      LocationWord(SectorOf(slots, i), Count(slots[i]))
  }

  /** The location table. */
  function Words(slots: seq<Option<Stored>>): (ws: seq<int32>)
    requires Sized(slots)
    ensures |ws| == SlotCount
  {
    seq(SlotCount, i requires 0 <= i < SlotCount => Word(slots, i))
  }

  /** `(int) (lastUpdated / 1000L)`: seconds, truncated toward zero and then
      narrowed to an int; 0 for an empty slot. */
  function Stamp(slot: Option<Stored>): (t: int32)
    ensures slot.None? ==> t == 0
    ensures slot.Some? && 0 <= slot.value.lastUpdated < 0x7FFF_FFFF * 1000 ==>
      t * 1000 <= slot.value.lastUpdated < t * 1000 + 1000
  {
    if slot.None? then 0 else ToInt32(JavaDiv(slot.value.lastUpdated, 1000))
  }

  /** The timestamp table. */
  function Stamps(slots: seq<Option<Stored>>): (ts: seq<int32>)
    ensures |ts| == |slots|
  {
    seq(|slots|, i requires 0 <= i < |slots| => Stamp(slots[i]))
  }

  // ---------------------------------------------------------------------
  // Payload frames

  function Zeros(n: nat): (z: seq<byte>)
    ensures |z| == n && forall i | 0 <= i < n :: z[i] == 0
  {
    seq(n, _ => 0)
  }

  /** One payload: its length plus one, the compression marker 2 (zlib), the
      data, and zero padding to the end of its last sector. */
  function Frame(st: Stored): (f: seq<byte>)
    requires |st.data| <= MaxPayload
    ensures |f| == SectorSize * SectorCount(|st.data|)
    ensures f[..4] == WriteSigned(|st.data| + 1, 4)
    ensures f[4] == 2 && f[5..5 + |st.data|] == st.data
    ensures forall i | 5 + |st.data| <= i < |f| :: f[i] == 0
  {
    var n := |st.data|;
    var f := WriteSigned(n + 1, 4) + [2] + st.data + Zeros(SectorCount(n) * SectorSize - 5 - n);
    assert f[5..5 + n] == st.data;
    f
  }

  /** The frames of the present slots, in slot order. */
  function Frames(slots: seq<Option<Stored>>): (fs: seq<byte>)
    requires forall i | 0 <= i < |slots| :: slots[i].Some? ==> |slots[i].value.data| <= MaxPayload
    ensures |fs| == SectorSize * Used(slots)
  {
    if |slots| == 0 then []
    else
      assert forall i | 0 <= i < |slots[1..]| :: slots[1..][i] == slots[i + 1];
      (if slots[0].None? then [] else Frame(slots[0].value)) + Frames(slots[1..])
  }

  lemma SectorMultiple(k: int)
    ensures (k * SectorSize) % SectorSize == 0
  {
  }

  /** `writeRegionFile` on the payloads: location table, timestamp table,
      frames.  The file is the two header sectors plus every payload's
      sectors. */
  function Layout(slots: seq<Option<Stored>>): (out: seq<byte>)
    requires Sized(slots)
    ensures |out| == 2 * SectorSize + SectorSize * Used(slots)
    ensures |out| % SectorSize == 0
  {
    var out := WriteInts(Words(slots)) + WriteInts(Stamps(slots)) + Frames(slots);
    SectorMultiple(2 + Used(slots));
    out
  }

  // ---------------------------------------------------------------------
  // Reader

  /** A location entry as the reader decodes it: slot, `id >> 8` and
      `id & 0xFF`. */
  datatype Entry = Entry(slot: nat, sector: int, count: int)

  /** What reading left behind: the world with every chunk read before the
      first failure, and that failure if there was one. */
  datatype Loaded = Loaded(world: Worlds.World, failure: Option<Error>)

  /** `DataInput.skipBytes`: up to `n` bytes, fewer at the end of the input,
      none for a negative `n`. */
  function Skip(s: seq<byte>, n: int): (r: seq<byte>)
    ensures n <= 0 ==> r == s
    ensures 0 <= n <= |s| ==> r == s[n..]
    ensures n > |s| ==> r == []
  {
    if n <= 0 then s else if n >= |s| then [] else s[n..]
  }

  /** The 1024 location words, read one int at a time. */
  function ReadLocations(s: seq<byte>): (r: Result<(seq<int32>, seq<byte>)>)
    ensures r.Err? <==> |s| < 4 * SlotCount
    ensures r.Err? ==> r.error == EndOfInput
    ensures r.Ok? ==> |r.value.0| == SlotCount && r.value.1 == s[4 * SlotCount..]
  {
    if |s| < 4 * SlotCount then Err(EndOfInput)
    else Ok((ReadInts(s[..4 * SlotCount]), s[4 * SlotCount..]))
  }

  /** The entries of the non-zero words, in slot order; `base` is the slot of
      `words[0]`. */
  function EntriesOf(words: seq<int32>, base: nat): (es: seq<Entry>)
    ensures forall k | 0 <= k < |es| ::
      base <= es[k].slot < base + |words| && words[es[k].slot - base] != 0 &&
      es[k].sector == words[es[k].slot - base] / 256 &&
      es[k].count == words[es[k].slot - base] % 256
  {
    if |words| == 0 then []
    else
      var rest := EntriesOf(words[1..], base + 1);
      assert forall i | 1 <= i < |words| :: words[1..][i - 1] == words[i];
      if words[0] == 0 then rest
      else
        var es := [Entry(base, words[0] / 256, words[0] % 256)] + rest;
        assert forall k | 1 <= k < |es| :: es[k] == rest[k - 1];
        es
  }

  /** The timestamp table: an int read for each present slot, four bytes
      skipped for each empty one; the values are not used. */
  function SkipStamps(words: seq<int32>, s: seq<byte>): (r: Result<seq<byte>>)
    ensures r.Ok? ==> |r.value| <= |s|
    ensures |s| >= 4 * |words| ==> r == Ok(s[4 * |words|..])
  {
    if |words| == 0 then Ok(s)
    else if words[0] == 0 then SkipStamps(words[1..], Skip(s, 4))
    else
      var t :- ReadSigned(s, 4);
      SkipStamps(words[1..], t.1)
  }

  predicate SortedBySector(es: seq<Entry>)
  {
    forall k, l | 0 <= k < l < |es| :: es[k].sector <= es[l].sector
  }

  /** Places `e` before the first entry whose sector is not smaller, so that
      entries with equal sectors keep their order. */
  function Insert(e: Entry, es: seq<Entry>): (r: seq<Entry>)
    ensures multiset(r) == multiset(es) + multiset{e}
    ensures |es| > 0 && e.sector <= es[0].sector ==> r == [e] + es
  {
    if |es| == 0 || e.sector <= es[0].sector then [e] + es
    else
      assert es == [es[0]] + es[1..];
      [es[0]] + Insert(e, es[1..])
  }

  /** Inserting into a sorted run keeps it sorted. */
  lemma {:induction false} InsertSorted(e: Entry, es: seq<Entry>)
    requires SortedBySector(es)
    ensures SortedBySector(Insert(e, es))
    decreases |es|
  {
    if |es| > 0 && e.sector > es[0].sector {
      var t := Insert(e, es[1..]);
      InsertSorted(e, es[1..]);
      var r := [es[0]] + t;
      assert r == Insert(e, es);
      forall l | 0 < l < |r| ensures es[0].sector <= r[l].sector {
        assert r[l] == t[l - 1];
        assert r[l] in multiset(es[1..]) + multiset{e};
        if r[l] != e {
          var j :| 0 <= j < |es[1..]| && es[1..][j] == r[l];
          assert es[j + 1] == r[l];
        }
      }
    }
  }

  /** The stable sort of the entries by sector. */
  function SortBySector(es: seq<Entry>): (r: seq<Entry>)
    ensures multiset(r) == multiset(es) && SortedBySector(r)
    ensures SortedBySector(es) ==> r == es
  {
    if |es| == 0 then []
    else
      var t := SortBySector(es[1..]);
      SortStep(es, t);
      Insert(es[0], t)
  }

  /** The step of the sort: the head inserted into the sorted tail is a
      sorted permutation, and the run itself when it was sorted already. */
  lemma SortStep(es: seq<Entry>, t: seq<Entry>)
    requires |es| > 0 && multiset(t) == multiset(es[1..]) && SortedBySector(t)
    requires SortedBySector(es[1..]) ==> t == es[1..]
    ensures multiset(Insert(es[0], t)) == multiset(es)
    ensures SortedBySector(Insert(es[0], t))
    ensures SortedBySector(es) ==> Insert(es[0], t) == es
  {
    InsertSorted(es[0], t);
    assert es == [es[0]] + es[1..];
    if SortedBySector(es) {
      var tail := es[1..];
      forall k, l | 0 <= k < l < |tail| ensures tail[k].sector <= tail[l].sector {
        assert tail[k] == es[k + 1] && tail[l] == es[l + 1];
      }
      assert t == tail;
      if |t| > 0 {
        assert t[0] == es[1];
      }
    }
  }

  /** One frame at the current position: length, version byte, data, and
      the padding the entry's sector count implies. */
  function ReadFrame(s: seq<byte>, count: int): (r: Result<(seq<byte>, seq<byte>)>)
    ensures |s| < 4 ==> r == Err(EndOfInput)
    ensures r.Ok? ==> |r.value.0| + 5 <= |s| && |r.value.1| <= |s| - |r.value.0| - 5
  {
    var h :- ReadSigned(s, 4);
    var n := ToInt32(h.0 - 1);
    if n < 0 then Err(NegativeSize(n))
    else
      var v :- ReadSigned(h.1, 1);
      if |v.1| < n then Err(EndOfInput)
      else Ok((v.1[..n], Skip(v.1[n..], count * SectorSize - 5 - n)))
  }

  function Store(w: Worlds.World, k: int64, c: Chunks.Chunk): (r: Worlds.World)
    ensures r.properties == w.properties && r.chunks == w.chunks[k := c]
  {
    w.(chunks := w.chunks[k := c])
  }

  /** One turn of the chunk loop: skip whole sectors up to the entry's
      sector, read its frame and decode it.  Gives the chunk, the input after
      the frame, and the sector counter moved past the entry's sectors. */
  function NextChunk(e: Entry, s: seq<byte>, sector: int, load: seq<byte> -> Result<Chunks.Chunk>)
    : (r: Result<(Chunks.Chunk, seq<byte>, int)>)
    ensures r.Ok? ==> |r.value.1| < |s|
  {
    var at := if sector < e.sector then e.sector else sector;
    var frame :- ReadFrame(Skip(s, SectorSize * (at - sector)), e.count);
    var c :- load(frame.0);
    Ok((c, frame.1, at + e.count))
  }

  /** The chunk loop: each entry's chunk is stored under its slot's key, in
      the order of the entries, until the first failure. */
  function ReadChunks(w: Worlds.World, es: seq<Entry>, s: seq<byte>, sector: int,
                      load: seq<byte> -> Result<Chunks.Chunk>, key: nat -> int64): (r: Loaded)
    ensures r.world.properties == w.properties
    decreases |es|
  {
    if |es| == 0 then Loaded(w, None)
    else
      match NextChunk(es[0], s, sector, load)
      case Err(err) => Loaded(w, Some(err))
      case Ok(next) => ReadChunks(Store(w, key(es[0].slot), next.0), es[1..], next.1, next.2, load, key)
  }

  /** `readRegionFile` with the decoder and the slot keys as parameters. */
  function ReadRegionWith(w: Worlds.World, s: seq<byte>,
                          load: seq<byte> -> Result<Chunks.Chunk>, key: nat -> int64): (r: Loaded)
    ensures r.world.properties == w.properties
    ensures |s| < 4 * SlotCount ==> r == Loaded(w, Some(EndOfInput))
  {
    match ReadLocations(s)
    case Err(err) => Loaded(w, Some(err))
    case Ok(table) =>
      match SkipStamps(table.0, table.1)
      case Err(err) => Loaded(w, Some(err))
      case Ok(rest) => ReadChunks(w, Visits(table.0), rest, 2, load, key)
  }

  /** The keys of a run of entries' slots. */
  function KeysOf(es: seq<Entry>, key: nat -> int64): set<int64>
  {
    set i | 0 <= i < |es| :: key(es[i].slot)
  }

  /** The chunk loop only adds chunks, and only under the keys of its
      entries' slots. */
  lemma {:induction false} ReadChunksKeys(w: Worlds.World, es: seq<Entry>, s: seq<byte>, sector: int,
                                          load: seq<byte> -> Result<Chunks.Chunk>, key: nat -> int64)
    ensures var r := ReadChunks(w, es, s, sector, load, key);
      w.chunks.Keys <= r.world.chunks.Keys <= w.chunks.Keys + KeysOf(es, key)
    decreases |es|
  {
    if |es| > 0 {
      var n := NextChunk(es[0], s, sector, load);
      if n.Ok? {
        var w' := Store(w, key(es[0].slot), n.value.0);
        ReadChunksKeys(w', es[1..], n.value.1, n.value.2, load, key);
        assert KeysOf(es[1..], key) <= KeysOf(es, key) by {
          forall k | k in KeysOf(es[1..], key) ensures k in KeysOf(es, key) {
            var i :| 0 <= i < |es[1..]| && key(es[1..][i].slot) == k;
            assert es[i + 1] == es[1..][i];
          }
        }
        assert key(es[0].slot) in KeysOf(es, key);
      }
    }
  }

  /** The reader's entries, in the order it visits them. */
  function Visits(words: seq<int32>): (es: seq<Entry>)
    requires |words| == SlotCount
    ensures forall j | 0 <= j < |es| :: es[j].slot < SlotCount
  {
    var es0 := EntriesOf(words, 0);
    var es := SortBySector(es0);
    forall j | 0 <= j < |es| ensures es[j].slot < SlotCount {
      assert es[j] in multiset(es0);
      var m :| 0 <= m < |es0| && es0[m] == es[j];
    }
    es
  }

  /** Past the two tables, reading is the chunk loop over the visits. */
  lemma ReadRegionChunks(w: Worlds.World, s: seq<byte>,
                         load: seq<byte> -> Result<Chunks.Chunk>, key: nat -> int64)
    requires ReadLocations(s).Ok?
    requires SkipStamps(ReadLocations(s).value.0, ReadLocations(s).value.1).Ok?
    ensures var t := ReadLocations(s).value;
      ReadRegionWith(w, s, load, key) ==
        ReadChunks(w, Visits(t.0), SkipStamps(t.0, t.1).value, 2, load, key)
  {
  }

  /** Reading a region file keeps every chunk the world had and adds chunks
      only under the keys of the 1024 slots. */
  lemma ReadRegionKeys(w: Worlds.World, s: seq<byte>,
                       load: seq<byte> -> Result<Chunks.Chunk>, key: nat -> int64)
    ensures var r := ReadRegionWith(w, s, load, key);
      w.chunks.Keys <= r.world.chunks.Keys &&
      r.world.chunks.Keys <= w.chunks.Keys + set i | 0 <= i < SlotCount :: key(i)
  {
    var t := ReadLocations(s);
    if t.Ok? && SkipStamps(t.value.0, t.value.1).Ok? {
      ReadRegionChunks(w, s, load, key);
      var es := Visits(t.value.0);
      ReadChunksKeys(w, es, SkipStamps(t.value.0, t.value.1).value, 2, load, key);
      assert KeysOf(es, key) <= set i | 0 <= i < SlotCount :: key(i);
    }
  }

  /** The chunk loop leaves a key that none of its entries' slots maps to as
      it was. */
  lemma {:induction false} ReadChunksOther(w: Worlds.World, es: seq<Entry>, s: seq<byte>, sector: int,
                                           load: seq<byte> -> Result<Chunks.Chunk>, key: nat -> int64, k: int64)
    requires forall i | 0 <= i < |es| :: key(es[i].slot) != k
    ensures var r := ReadChunks(w, es, s, sector, load, key);
      (k in r.world.chunks <==> k in w.chunks) && (k in w.chunks ==> r.world.chunks[k] == w.chunks[k])
    decreases |es|
  {
    if |es| > 0 {
      var n := NextChunk(es[0], s, sector, load);
      if n.Ok? {
        assert forall i | 0 <= i < |es[1..]| :: es[1..][i] == es[i + 1];
        ReadChunksOther(Store(w, key(es[0].slot), n.value.0), es[1..], n.value.1, n.value.2, load, key, k);
      }
    }
  }

  /** Whatever the file holds, reading it leaves every key that is not the
      key of one of the 1024 slots as it was. */
  lemma ReadRegionOther(w: Worlds.World, s: seq<byte>,
                        load: seq<byte> -> Result<Chunks.Chunk>, key: nat -> int64, k: int64)
    requires forall i | 0 <= i < SlotCount :: key(i) != k
    ensures var r := ReadRegionWith(w, s, load, key);
      (k in r.world.chunks <==> k in w.chunks) && (k in w.chunks ==> r.world.chunks[k] == w.chunks[k])
  {
    var t := ReadLocations(s);
    if t.Ok? && SkipStamps(t.value.0, t.value.1).Ok? {
      ReadRegionChunks(w, s, load, key);
      ReadChunksOther(w, Visits(t.value.0), SkipStamps(t.value.0, t.value.1).value, 2, load, key, k);
    }
  }

  /** Every chunk stored under a key that no slot maps to is kept as it was. */
  lemma ReadRegionKeeps(w: Worlds.World, s: seq<byte>,
                        load: seq<byte> -> Result<Chunks.Chunk>, key: nat -> int64)
    ensures var r := ReadRegionWith(w, s, load, key);
      forall k | k in w.chunks && k !in (set i | 0 <= i < SlotCount :: key(i)) ::
        k in r.world.chunks && r.world.chunks[k] == w.chunks[k]
  {
    forall k | k in w.chunks && k !in (set i | 0 <= i < SlotCount :: key(i))
      ensures k in ReadRegionWith(w, s, load, key).world.chunks
      ensures ReadRegionWith(w, s, load, key).world.chunks[k] == w.chunks[k]
    {
      ReadRegionOther(w, s, load, key, k);
    }
  }

}
