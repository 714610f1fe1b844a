/** The per-world settings a chunk needs: the world's height in blocks. */
module WorldProps {
  import opened Bytes

  /** An immutable record compared by value. */
  datatype WorldProperties = WorldProperties(height: int32)

  /** The constructor asserts that the height is a multiple of 16
      (`height & 0xF == 0`, which for a two's complement int is
      `height % 16 == 0`). */
  function Make(height: int32): (p: WorldProperties)
    requires height % 16 == 0
    ensures p.height == height
    ensures 16 * HeightInChunkSections(p) == height
  {
    WorldProperties(height)
  }

  /** `getHeightInChunkSections`: `height >> 4`, an arithmetic shift, so the
      quotient is rounded toward negative infinity. */
  function HeightInChunkSections(p: WorldProperties): (n: int)
    ensures 16 * n <= p.height < 16 * n + 16
  {
    p.height / 16
  }

  /** Equal heights give equal properties and equal section counts. */
  lemma PropertiesByValue(a: int32, b: int32)
    requires a % 16 == 0 && b % 16 == 0
    ensures Make(a) == Make(b) <==> a == b
    ensures HeightInChunkSections(Make(a)) == HeightInChunkSections(Make(b)) <==> a == b
  {
  }
}
