/** Per-block-id light properties: the opacity and brightness a lighter
    knows for each block id, with a default for ids it was never told about. */
module Lighters {
  import opened Bytes
  import opened Wrappers

  /** The light properties of one block id. */
  datatype LightData = LightData(opacity: int32, brightness: int32)

  /** What an unknown id looks like: fully transparent and dark. */
  const Default := LightData(0, 0)

  /** The table from block id to light properties. */
  datatype Lighter = Lighter(blocks: map<int32, LightData>)

  /** A lighter that knows no block yet. */
  function Empty(): (l: Lighter)
    ensures forall id: int32 :: id !in l.blocks
  {
    Lighter(map[])
  }

  /** `lookup`: the stored light data, or the default for an unknown id. */
  function Lookup(l: Lighter, id: int32): (d: LightData)
    ensures id in l.blocks ==> d == l.blocks[id]
    ensures id !in l.blocks ==> d == Default
  {
    if id in l.blocks then l.blocks[id] else Default
  }

  /** `putBlockLightData`: record (or overwrite) the properties of one id. */
  function PutBlockLightData(l: Lighter, id: int32, opacity: int32, brightness: int32): (r: Lighter)
    ensures Lookup(r, id) == LightData(opacity, brightness)
    ensures forall other: int32 | other != id :: Lookup(r, other) == Lookup(l, other)
  {
    Lighter(l.blocks[id := LightData(opacity, brightness)])
  }

  /** `getOpacity`. */
  function GetOpacity(l: Lighter, id: int32): (o: int32)
    ensures id !in l.blocks ==> o == 0
    ensures id in l.blocks ==> o == l.blocks[id].opacity
  {
    Lookup(l, id).opacity
  }

  /** An id that was never put is transparent. */
  lemma OpacityOfUnknown(id: int32)
    ensures GetOpacity(Empty(), id) == 0
  {
  }

  /** A put is read back by `getOpacity` and a second put for the same id
      overwrites the first; every other id keeps its opacity. */
  lemma OpacityAfterPut(l: Lighter, id: int32, opacity: int32, brightness: int32, other: int32)
    ensures GetOpacity(PutBlockLightData(l, id, opacity, brightness), other) ==
      if other == id then opacity else GetOpacity(l, other)
  {
    assert Lookup(PutBlockLightData(l, id, opacity, brightness), other) ==
      if other == id then LightData(opacity, brightness) else Lookup(l, other);
  }

  /** The default light table: the (opacity, brightness) the game assigns
      to each listed block id.  Its ids are distinct, so putting its rows one
      by one gives the same lighter in any order. */
  function DefaultLight(id: int): (d: Option<LightData>)
  {
    if id == 1 then Some(LightData(255, 0))
    else if id == 2 then Some(LightData(255, 0))
    else if id == 3 then Some(LightData(255, 0))
    else if id == 4 then Some(LightData(255, 0))
    else if id == 5 then Some(LightData(255, 0))
    else if id == 7 then Some(LightData(255, 0))
    else if id == 8 then Some(LightData(3, 0))
    else if id == 9 then Some(LightData(3, 0))
    else if id == 10 then Some(LightData(0, 15))
    else if id == 11 then Some(LightData(0, 15))
    else if id == 12 then Some(LightData(255, 0))
    else if id == 13 then Some(LightData(255, 0))
    else if id == 14 then Some(LightData(255, 0))
    else if id == 15 then Some(LightData(255, 0))
    else if id == 16 then Some(LightData(255, 0))
    else if id == 17 then Some(LightData(255, 0))
    else if id == 18 then Some(LightData(1, 0))
    else if id == 19 then Some(LightData(255, 0))
    else if id == 21 then Some(LightData(255, 0))
    else if id == 22 then Some(LightData(255, 0))
    else if id == 23 then Some(LightData(255, 0))
    else if id == 24 then Some(LightData(255, 0))
    else if id == 25 then Some(LightData(255, 0))
    else if id == 30 then Some(LightData(1, 0))
    else if id == 35 then Some(LightData(255, 0))
    else if id == 39 then Some(LightData(0, 1))
    else if id == 41 then Some(LightData(255, 0))
    else if id == 42 then Some(LightData(255, 0))
    else if id == 43 then Some(LightData(255, 0))
    else if id == 44 then Some(LightData(255, 0))
    else if id == 45 then Some(LightData(255, 0))
    else if id == 46 then Some(LightData(255, 0))
    else if id == 47 then Some(LightData(255, 0))
    else if id == 48 then Some(LightData(255, 0))
    else if id == 49 then Some(LightData(255, 0))
    else if id == 50 then Some(LightData(0, 14))
    else if id == 51 then Some(LightData(0, 15))
    else if id == 53 then Some(LightData(255, 0))
    else if id == 56 then Some(LightData(255, 0))
    else if id == 57 then Some(LightData(255, 0))
    else if id == 58 then Some(LightData(255, 0))
    else if id == 60 then Some(LightData(255, 0))
    else if id == 61 then Some(LightData(255, 0))
    else if id == 62 then Some(LightData(255, 13))
    else if id == 67 then Some(LightData(255, 0))
    else if id == 73 then Some(LightData(255, 0))
    else if id == 74 then Some(LightData(255, 9))
    else if id == 76 then Some(LightData(0, 7))
    else if id == 79 then Some(LightData(3, 0))
    else if id == 80 then Some(LightData(255, 0))
    else if id == 82 then Some(LightData(255, 0))
    else if id == 84 then Some(LightData(255, 0))
    else if id == 86 then Some(LightData(255, 0))
    else if id == 87 then Some(LightData(255, 0))
    else if id == 88 then Some(LightData(255, 0))
    else if id == 89 then Some(LightData(255, 15))
    else if id == 90 then Some(LightData(0, 11))
    else if id == 91 then Some(LightData(255, 15))
    else if id == 94 then Some(LightData(0, 9))
    else if id == 95 then Some(LightData(255, 15))
    else if id == 97 then Some(LightData(255, 0))
    else if id == 98 then Some(LightData(255, 0))
    else if id == 99 then Some(LightData(255, 0))
    else if id == 100 then Some(LightData(255, 0))
    else if id == 103 then Some(LightData(255, 0))
    else if id == 108 then Some(LightData(255, 0))
    else if id == 109 then Some(LightData(255, 0))
    else if id == 110 then Some(LightData(255, 0))
    else if id == 112 then Some(LightData(255, 0))
    else if id == 114 then Some(LightData(255, 0))
    else if id == 117 then Some(LightData(0, 1))
    else if id == 119 then Some(LightData(0, 15))
    else if id == 120 then Some(LightData(0, 1))
    else if id == 121 then Some(LightData(255, 0))
    else if id == 122 then Some(LightData(0, 1))
    else if id == 123 then Some(LightData(255, 0))
    else if id == 124 then Some(LightData(255, 15))
    else if id == 125 then Some(LightData(255, 0))
    else if id == 126 then Some(LightData(255, 0))
    else if id == 128 then Some(LightData(255, 0))
    else if id == 129 then Some(LightData(255, 0))
    else if id == 130 then Some(LightData(0, 7))
    else if id == 133 then Some(LightData(255, 0))
    else if id == 134 then Some(LightData(255, 0))
    else if id == 135 then Some(LightData(255, 0))
    else if id == 136 then Some(LightData(255, 0))
    else if id == 137 then Some(LightData(255, 0))
    else if id == 138 then Some(LightData(0, 15))
    else if id == 150 then Some(LightData(0, 9))
    else if id == 152 then Some(LightData(255, 0))
    else if id == 153 then Some(LightData(255, 0))
    else if id == 155 then Some(LightData(255, 0))
    else if id == 156 then Some(LightData(255, 0))
    else if id == 158 then Some(LightData(255, 0))
    else if id == 159 then Some(LightData(255, 0))
    else if id == 170 then Some(LightData(255, 0))
    else if id == 172 then Some(LightData(255, 0))
    else if id == 173 then Some(LightData(255, 0))
    else None
  }

  /** `putDefaultBlockLightData`: put every row of the default table. */
  function PutDefaultBlockLightData(l: Lighter): (r: Lighter)
    ensures forall id: int32 | DefaultLight(id).Some? :: Lookup(r, id) == DefaultLight(id).value
    ensures forall id: int32 | DefaultLight(id).None? :: Lookup(r, id) == Lookup(l, id)
  {
    Lighter(map id: int32 | id in l.blocks || DefaultLight(id).Some? ::
      if DefaultLight(id).Some? then DefaultLight(id).value else l.blocks[id])
  }

  /** Sample rows of the default table: stone is opaque, water lets most
      light through, lava is transparent but bright. */
  lemma DefaultOpacities(l: Lighter)
    ensures GetOpacity(PutDefaultBlockLightData(l), 1) == 255
    ensures GetOpacity(PutDefaultBlockLightData(l), 8) == 3
    ensures Lookup(PutDefaultBlockLightData(l), 10) == LightData(0, 15)
  {
    assert DefaultLight(1) == Some(LightData(255, 0));
    assert DefaultLight(8) == Some(LightData(3, 0));
    assert DefaultLight(10) == Some(LightData(0, 15));
  }

  /** Air (id 0) is not listed, so it stays transparent. */
  lemma DefaultAir()
    ensures GetOpacity(PutDefaultBlockLightData(Empty()), 0) == 0
  {
    assert DefaultLight(0) == None;
  }
}
