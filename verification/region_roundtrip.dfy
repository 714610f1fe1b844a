/** Reading back a laid-out region file: within the format's limits the
    reader finds every payload the writer placed, in slot order, and stores
    each decoded chunk under its slot's key. */
module RegionRoundTrip {
  import opened Bytes
  import opened Wrappers
  import opened Regions
  import Chunks
  import Worlds

  /** The format's limits: every payload's sector count fits the word's low
      byte and every sector number fits the 24 bits above it. */
  predicate FitsTable(slots: seq<Option<Stored>>)
  {
    Sized(slots) && SectorOf(slots, |slots|) < 0x80_0000 &&
    forall i | 0 <= i < |slots| :: Count(slots[i]) < 256
  }

  /** The entries the writer's table describes from slot `j` on. */
  function Expected(slots: seq<Option<Stored>>, j: nat): (es: seq<Entry>)
    requires j <= |slots|
    decreases |slots| - j
  {
    if j == |slots| then []
    else
      (if slots[j].None? then [] else [Entry(j, SectorOf(slots, j), Count(slots[j]))]) +
      Expected(slots, j + 1)
  }

  /** The reader decodes the writer's location words into exactly the
      entries of the present slots, with the sectors the writer allocated. */
  lemma {:induction false} WordsEntries(slots: seq<Option<Stored>>, j: nat)
    requires FitsTable(slots) && j <= |slots|
    ensures EntriesOf(Words(slots)[j..], j) == Expected(slots, j)
    decreases |slots| - j
  {
    var ws := Words(slots)[j..];
    if j < |slots| {
      assert ws[0] == Word(slots, j);
      assert ws[1..] == Words(slots)[j + 1..];
      WordsEntries(slots, j + 1);
      if slots[j].Some? {
        SectorOfMonotone(slots, j, |slots|);
        LocationWordFields(SectorOf(slots, j), Count(slots[j]));
      }
    }
  }

  /** The expected entries are in ascending sector order, all at or after
      the sector the scan has reached. */
  lemma {:induction false} ExpectedSorted(slots: seq<Option<Stored>>, j: nat)
    requires j <= |slots|
    ensures SortedBySector(Expected(slots, j))
    ensures forall k | 0 <= k < |Expected(slots, j)| :: Expected(slots, j)[k].sector >= SectorOf(slots, j)
    decreases |slots| - j
  {
    if j < |slots| {
      var t := Expected(slots, j + 1);
      ExpectedSorted(slots, j + 1);
      SectorOfNext(slots, j);
      if slots[j].Some? {
        var es := [Entry(j, SectorOf(slots, j), Count(slots[j]))] + t;
        assert es == Expected(slots, j);
        assert forall k | 1 <= k < |es| :: es[k] == t[k - 1];
      } else {
        assert Expected(slots, j) == [] + t;
      }
    }
  }

  /** A frame reads back as its data, leaving exactly what follows it. */
  lemma FrameRoundTrip(st: Stored, rest: seq<byte>)
    requires |st.data| <= MaxPayload
    ensures ReadFrame(Frame(st) + rest, SectorCount(|st.data|)) == Ok((st.data, rest))
  {
    var n := |st.data|;
    var count := SectorCount(n);
    var pad := Zeros(count * SectorSize - 5 - n);
    var tail := st.data + pad + rest;
    var head := WriteSigned(n + 1, 4);
    assert Frame(st) + rest == head + ([2] + tail);
    ReadWriteSigned(n + 1, 4, [2] + tail);
    ReadWriteSigned(2, 1, tail);
    assert WriteSigned(2, 1) == [2];
    assert tail[..n] == st.data;
    assert tail[n..] == pad + rest;
  }

  /** The chunks of slots `j ..` stored in slot order, as the reader is to
      store them. */
  function RestoreFrom(w: Worlds.World, slots: seq<Option<Stored>>, j: nat,
                       load: seq<byte> -> Result<Chunks.Chunk>, key: nat -> int64): (r: Worlds.World)
    requires j <= |slots|
    ensures r.properties == w.properties
    decreases |slots| - j
  {
    if j == |slots| then w
    else
      var w' := if slots[j].Some? && load(slots[j].value.data).Ok?
                then Store(w, key(j), load(slots[j].value.data).value) else w;
      RestoreFrom(w', slots, j + 1, load, key)
  }

  /** Every slot's chunk decodes. */
  predicate AllLoad(slots: seq<Option<Stored>>, load: seq<byte> -> Result<Chunks.Chunk>)
  {
    forall i | 0 <= i < |slots| :: slots[i].Some? ==> load(slots[i].value.data).Ok?
  }

  /** The frames from slot `j` on: slot `j`'s own frame, if any, then the
      rest. */
  lemma FramesFrom(slots: seq<Option<Stored>>, j: nat)
    requires Sized(slots) && j < |slots|
    ensures Frames(slots[j..]) ==
      (if slots[j].None? then [] else Frame(slots[j].value)) + Frames(slots[j + 1..])
  {
    assert slots[j..][0] == slots[j] && slots[j..][1..] == slots[j + 1..];
  }

  /** An entry at the current sector: its frame is read where the input
      stands. */
  lemma NextChunkHere(e: Entry, s: seq<byte>, load: seq<byte> -> Result<Chunks.Chunk>,
                      data: seq<byte>, rest: seq<byte>)
    requires ReadFrame(s, e.count) == Ok((data, rest)) && load(data).Ok?
    ensures NextChunk(e, s, e.sector, load) == Ok((load(data).value, rest, e.sector + e.count))
  {
    assert Skip(s, SectorSize * (e.sector - e.sector)) == s;
  }

  /** A successful turn of the chunk loop stores the chunk and goes on. */
  lemma ReadChunksStep(w: Worlds.World, es: seq<Entry>, s: seq<byte>, sector: int,
                       load: seq<byte> -> Result<Chunks.Chunk>, key: nat -> int64)
    requires |es| > 0 && NextChunk(es[0], s, sector, load).Ok?
    ensures var n := NextChunk(es[0], s, sector, load).value;
      ReadChunks(w, es, s, sector, load, key) ==
      ReadChunks(Store(w, key(es[0].slot), n.0), es[1..], n.1, n.2, load, key)
  {
  }

  /** One step of the chunk loop on the writer's frames: the entry of slot
      `j` sits at the current sector, so nothing is skipped; the chunk is
      slot `j`'s, the input moves to the next frame and the sector counter
      to the next slot's sector. */
  lemma NextChunkStep(slots: seq<Option<Stored>>, j: nat, load: seq<byte> -> Result<Chunks.Chunk>)
    requires Sized(slots) && j < |slots| && slots[j].Some? && load(slots[j].value.data).Ok?
    ensures var n := NextChunk(Entry(j, SectorOf(slots, j), Count(slots[j])), Frames(slots[j..]), SectorOf(slots, j), load);
      n.Ok? && n.value.0 == load(slots[j].value.data).value &&
      n.value.1 == Frames(slots[j + 1..]) && n.value.2 == SectorOf(slots, j + 1)
  {
    var st := slots[j].value;
    var rest := Frames(slots[j + 1..]);
    FramesFrom(slots, j);
    FrameRoundTrip(st, rest);
    NextChunkHere(Entry(j, SectorOf(slots, j), Count(slots[j])), Frames(slots[j..]), load, st.data, rest);
    SectorOfNext(slots, j);
  }

  /** A present slot: the loop stores its chunk and goes on from the next
      slot, as restoring does. */
  lemma PresentStep(w: Worlds.World, slots: seq<Option<Stored>>, j: nat,
                    load: seq<byte> -> Result<Chunks.Chunk>, key: nat -> int64)
    requires Sized(slots) && j < |slots| && slots[j].Some? && load(slots[j].value.data).Ok?
    ensures var w' := Store(w, key(j), load(slots[j].value.data).value);
      ReadChunks(w, Expected(slots, j), Frames(slots[j..]), SectorOf(slots, j), load, key) ==
        ReadChunks(w', Expected(slots, j + 1), Frames(slots[j + 1..]), SectorOf(slots, j + 1), load, key) &&
      RestoreFrom(w, slots, j, load, key) == RestoreFrom(w', slots, j + 1, load, key)
  {
    var es := Expected(slots, j);
    var s := Frames(slots[j..]);
    var sector := SectorOf(slots, j);
    assert es[0] == Entry(j, sector, Count(slots[j]));
    assert es[1..] == Expected(slots, j + 1);
    NextChunkStep(slots, j, load);
    ReadChunksStep(w, es, s, sector, load, key);
  }

  /** An empty slot: the loop and restoring both pass over it. */
  lemma AbsentStep(w: Worlds.World, slots: seq<Option<Stored>>, j: nat,
                   load: seq<byte> -> Result<Chunks.Chunk>, key: nat -> int64)
    requires Sized(slots) && j < |slots| && slots[j].None?
    ensures ReadChunks(w, Expected(slots, j), Frames(slots[j..]), SectorOf(slots, j), load, key) ==
        ReadChunks(w, Expected(slots, j + 1), Frames(slots[j + 1..]), SectorOf(slots, j + 1), load, key)
    ensures RestoreFrom(w, slots, j, load, key) == RestoreFrom(w, slots, j + 1, load, key)
  {
    assert Expected(slots, j) == Expected(slots, j + 1);
    FramesFrom(slots, j);
    assert Frames(slots[j..]) == Frames(slots[j + 1..]);
    SectorOfNext(slots, j);
  }

  /** The chunk loop over the expected entries and the writer's frames
      restores every slot from `j` on and ends without failure. */
  lemma {:induction false} ReadFramesFrom(w: Worlds.World, slots: seq<Option<Stored>>, j: nat,
                                          load: seq<byte> -> Result<Chunks.Chunk>, key: nat -> int64)
    requires Sized(slots) && j <= |slots| && AllLoad(slots, load)
    ensures ReadChunks(w, Expected(slots, j), Frames(slots[j..]), SectorOf(slots, j), load, key)
      == Loaded(RestoreFrom(w, slots, j, load, key), None)
    decreases |slots| - j
  {
    if j < |slots| {
      if slots[j].Some? {
        PresentStep(w, slots, j, load, key);
        ReadFramesFrom(Store(w, key(j), load(slots[j].value.data).value), slots, j + 1, load, key);
      } else {
        AbsentStep(w, slots, j, load, key);
        ReadFramesFrom(w, slots, j + 1, load, key);
      }
    }
  }

  /** Reading the 1024 words written as ints gives them back and leaves what
      follows. */
  lemma ReadLocationsOf(words: seq<int32>, rest: seq<byte>)
    requires |words| == SlotCount
    ensures var t := ReadLocations(WriteInts(words) + rest);
      t.Ok? && t.value.0 == words && t.value.1 == rest
  {
    SplitAt(WriteInts(words), rest);
    ReadWriteInts(words);
  }

  /** The location table of a laid-out file reads back as the writer's
      words, leaving the timestamps and the frames. */
  lemma LocationsRoundTrip(slots: seq<Option<Stored>>)
    requires Sized(slots)
    ensures var t := ReadLocations(Layout(slots));
      t.Ok? && t.value.0 == Words(slots) && t.value.1 == WriteInts(Stamps(slots)) + Frames(slots)
  {
    var a := WriteInts(Words(slots));
    var bc := WriteInts(Stamps(slots)) + Frames(slots);
    Assoc3(a, WriteInts(Stamps(slots)), Frames(slots));
    ReadLocationsOf(Words(slots), bc);
  }

  /** The timestamp table is passed over as a whole. */
  lemma StampsSkipped(slots: seq<Option<Stored>>)
    requires Sized(slots)
    ensures SkipStamps(Words(slots), WriteInts(Stamps(slots)) + Frames(slots)) == Ok(Frames(slots))
  {
    SplitAt(WriteInts(Stamps(slots)), Frames(slots));
  }

  /** Write then read: within the format's limits, the reader stores every
      present slot's decoded chunk under that slot's key, in slot order, and
      reports no failure. */
  lemma LayoutRoundTrip(w: Worlds.World, slots: seq<Option<Stored>>,
                        load: seq<byte> -> Result<Chunks.Chunk>, key: nat -> int64)
    requires FitsTable(slots) && AllLoad(slots, load)
    ensures var r := ReadRegionWith(w, Layout(slots), load, key);
      r.world == RestoreFrom(w, slots, 0, load, key) && r.failure.None?
  {
    var words := Words(slots);
    LocationsRoundTrip(slots);
    StampsSkipped(slots);
    assert words[0..] == words;
    WordsEntries(slots, 0);
    ExpectedSorted(slots, 0);
    var es := Expected(slots, 0);
    assert SortBySector(EntriesOf(words, 0)) == es;
    assert ReadRegionWith(w, Layout(slots), load, key) == ReadChunks(w, es, Frames(slots), 2, load, key);
    assert slots[0..] == slots && slots[..0] == [];
    assert SectorOf(slots, 0) == 2;
    ReadFramesFrom(w, slots, 0, load, key);
  }

  /** With distinct keys per slot, after restoring each present slot's key
      holds its chunk and an empty slot's key is left as it was. */
  lemma {:induction false} RestoreLookup(w: Worlds.World, slots: seq<Option<Stored>>, j: nat,
                                         load: seq<byte> -> Result<Chunks.Chunk>, key: nat -> int64, i: nat)
    requires j <= i < |slots| && AllLoad(slots, load)
    requires forall a, b | j <= a < b < |slots| :: key(a) != key(b)
    ensures var r := RestoreFrom(w, slots, j, load, key);
      if slots[i].Some? then key(i) in r.chunks && r.chunks[key(i)] == load(slots[i].value.data).value
      else (key(i) in r.chunks <==> key(i) in w.chunks) &&
           (key(i) in w.chunks ==> r.chunks[key(i)] == w.chunks[key(i)])
    decreases |slots| - j
  {
    var w' := if slots[j].Some? then Store(w, key(j), load(slots[j].value.data).value) else w;
    if i == j {
      RestoreKeep(w', slots, j + 1, load, key, key(i));
    } else {
      RestoreLookup(w', slots, j + 1, load, key, i);
    }
  }

  /** A key no slot from `j` on maps to is left as it was. */
  lemma {:induction false} RestoreKeep(w: Worlds.World, slots: seq<Option<Stored>>, j: nat,
                                       load: seq<byte> -> Result<Chunks.Chunk>, key: nat -> int64, k: int64)
    requires j <= |slots| && forall m | j <= m < |slots| :: key(m) != k
    ensures var r := RestoreFrom(w, slots, j, load, key);
      (k in r.chunks <==> k in w.chunks) && (k in w.chunks ==> r.chunks[k] == w.chunks[k])
    decreases |slots| - j
  {
    if j < |slots| {
      var w' := if slots[j].Some? && load(slots[j].value.data).Ok?
                then Store(w, key(j), load(slots[j].value.data).value) else w;
      RestoreKeep(w', slots, j + 1, load, key, k);
    }
  }

  /** Write then read, slot by slot: with distinct slot keys, a present
      slot's key holds its decoded chunk and an empty slot's key is left as
      the target world had it. */
  lemma LayoutLookup(w: Worlds.World, slots: seq<Option<Stored>>,
                     load: seq<byte> -> Result<Chunks.Chunk>, key: nat -> int64, i: nat)
    requires FitsTable(slots) && AllLoad(slots, load) && i < |slots|
    requires forall a, b | 0 <= a < b < |slots| :: key(a) != key(b)
    ensures var r := ReadRegionWith(w, Layout(slots), load, key);
      r.failure.None? &&
      if slots[i].Some? then key(i) in r.world.chunks && r.world.chunks[key(i)] == load(slots[i].value.data).value
      else (key(i) in r.world.chunks <==> key(i) in w.chunks) &&
           (key(i) in w.chunks ==> r.world.chunks[key(i)] == w.chunks[key(i)])
  {
    LayoutRoundTrip(w, slots, load, key);
    RestoreLookup(w, slots, 0, load, key, i);
  }
}
